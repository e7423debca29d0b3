/** The car detail page of src/pages/CarDetailPage.tsx over the local catalogue:
    the lookup by route id, the "similar cars" selection and the image gallery. */
module CarDetail {
  import opened Wrappers
  import opened Seqs
  import opened MockModel

  // ---------------------------------------------------------------------------
  // Lookup

  /** `cars.find((c) => c.id === id)`; the route id may be undefined, which no
      car matches. `None` is the "Car Not Found" view. */
  function FindById(cars: seq<MockCar>, id: Option<string>): (r: Option<MockCar>)
    ensures r.None? <==> forall c :: c in cars ==> Some(c.id) != id
    ensures r.Some? ==> exists i :: 0 <= i < |cars| && cars[i] == r.value && Some(r.value.id) == id
                                    && forall j :: 0 <= j < i ==> Some(cars[j].id) != id
  {
    match FirstIndex(cars, (c: MockCar) => Some(c.id) == id)
    case None => None
    case Some(i) => Some(cars[i])
  }

  // ---------------------------------------------------------------------------
  // similarCars

  /** An available car other than the one viewed. */
  predicate Candidate(viewed: MockCar, c: MockCar) {
    c.id != viewed.id && IsAvailable(c)
  }

  predicate SameBrandCandidate(viewed: MockCar, c: MockCar) {
    Candidate(viewed, c) && c.brand == viewed.brand
  }

  predicate OtherBrandCandidate(viewed: MockCar, c: MockCar) {
    Candidate(viewed, c) && c.brand != viewed.brand
  }

  function Candidates(cars: seq<MockCar>, viewed: MockCar): seq<MockCar> {
    Filter(cars, (c: MockCar) => Candidate(viewed, c))
  }

  function SameBrandMatches(cars: seq<MockCar>, viewed: MockCar): seq<MockCar> {
    Filter(cars, (c: MockCar) => SameBrandCandidate(viewed, c))
  }

  function OtherBrandMatches(cars: seq<MockCar>, viewed: MockCar): seq<MockCar> {
    Filter(cars, (c: MockCar) => OtherBrandCandidate(viewed, c))
  }

  /** Each candidate has either the viewed car's brand or another one. */
  lemma {:induction false} CandidatesPartition(cars: seq<MockCar>, viewed: MockCar)
    ensures |SameBrandMatches(cars, viewed)| + |OtherBrandMatches(cars, viewed)| == |Candidates(cars, viewed)|
  {
    if cars != [] {
      CandidatesPartition(cars[1..], viewed);
    }
  }

  /** Up to three available cars other than the viewed one: the same-brand ones
      first, then, when there are fewer than three of them, other brands, each
      group in catalogue order. */
  method SimilarCars(cars: seq<MockCar>, viewed: MockCar) returns (similar: seq<MockCar>)
    ensures forall c :: c in similar ==> IsAvailable(c) && c.id != viewed.id
    ensures |similar| == Min(3, |Candidates(cars, viewed)|)
    ensures var k := Min(3, |SameBrandMatches(cars, viewed)|);
            && k <= |similar|
            && (forall i :: 0 <= i < |similar| ==> (similar[i].brand == viewed.brand <==> i < k))
            && IsSubseq(similar[..k], cars) && IsSubseq(similar[k..], cars)
    ensures var k := Min(3, |SameBrandMatches(cars, viewed)|);
            && k <= |similar|
            && similar[..k] == Take(SameBrandMatches(cars, viewed), 3)
            && similar[k..] == Take(OtherBrandMatches(cars, viewed), |similar| - k)
    ensures NoDuplicates(cars) ==> NoDuplicates(similar)
  {
    var same := Take(SameBrandMatches(cars, viewed), 3);
    var extras: seq<MockCar> := [];
    similar := same;
    if |similar| < 3 {
      extras := Take(OtherBrandMatches(cars, viewed), 3 - |similar|);
      similar := similar + extras;
    }
    assert similar == same + extras;
    assert Groups(cars, viewed, same, extras);
    SelectionLaws(cars, viewed, same, extras);
    assert similar[..|same|] == same && similar[|same|..] == extras;
    assert |similar| - |same| == |extras|;
  }

  /** The two groups `SimilarCars` concatenates. */
  ghost predicate Groups(cars: seq<MockCar>, viewed: MockCar, same: seq<MockCar>, extras: seq<MockCar>) {
    && same == Take(SameBrandMatches(cars, viewed), 3)
    && extras == if |same| < 3 then Take(OtherBrandMatches(cars, viewed), 3 - |same|) else []
  }

  /** The facts `SimilarCars` promises, about the two groups it concatenates. */
  lemma SelectionLaws(cars: seq<MockCar>, viewed: MockCar, same: seq<MockCar>, extras: seq<MockCar>)
    requires Groups(cars, viewed, same, extras)
    ensures forall c :: c in same + extras ==> IsAvailable(c) && c.id != viewed.id
    ensures |same + extras| == Min(3, |Candidates(cars, viewed)|)
    ensures |same| == Min(3, |SameBrandMatches(cars, viewed)|)
    ensures forall i :: 0 <= i < |same + extras| ==> ((same + extras)[i].brand == viewed.brand <==> i < |same|)
    ensures (same + extras)[..|same|] == same && (same + extras)[|same|..] == extras
    ensures extras == Take(OtherBrandMatches(cars, viewed), |same + extras| - |same|)
    ensures IsSubseq(same, cars) && IsSubseq(extras, cars)
    ensures NoDuplicates(cars) ==> NoDuplicates(same + extras)
  {
    var others := OtherBrandMatches(cars, viewed);
    assert extras == Take(others, |extras|) by {
      if |same| < 3 {
        assert extras == Take(others, 3 - |same|);
      }
    }
    assert |same + extras| == Min(3, |Candidates(cars, viewed)|) by {
      CandidatesPartition(cars, viewed);
    }
    assert IsSubseq(same, cars) by {
      GroupIsSubseq(cars, viewed, true, 3);
    }
    assert IsSubseq(extras, cars) by {
      var k := if |same| < 3 then 3 - |same| else 0;
      assert extras == Take(OtherBrandMatches(cars, viewed), k);
      GroupIsSubseq(cars, viewed, false, k);
    }
    GroupBrands(cars, viewed, same, extras);
    ConcatBrands(viewed, same, extras);
    if NoDuplicates(cars) {
      DistinctGroups(cars, same, extras);
    }
  }

  /** Groups taken in order from a catalogue without repeats, and sharing no car,
      have no repeats together. */
  lemma DistinctGroups(cars: seq<MockCar>, same: seq<MockCar>, extras: seq<MockCar>)
    requires NoDuplicates(cars) && IsSubseq(same, cars) && IsSubseq(extras, cars)
    requires forall c :: c in same ==> c !in extras
    ensures NoDuplicates(same + extras)
  {
    SubseqNoDuplicates(same, cars);
    SubseqNoDuplicates(extras, cars);
    AppendNoDuplicates(same, extras);
  }

  /** The first group has the viewed car's brand, the second another brand. */
  lemma GroupBrands(cars: seq<MockCar>, viewed: MockCar, same: seq<MockCar>, extras: seq<MockCar>)
    requires Groups(cars, viewed, same, extras)
    ensures forall i :: 0 <= i < |same| ==> SameBrandCandidate(viewed, same[i])
    ensures forall i :: 0 <= i < |extras| ==> OtherBrandCandidate(viewed, extras[i])
  {
    var all := SameBrandMatches(cars, viewed);
    assert forall i :: 0 <= i < |same| ==> same[i] == all[i];
    if |same| < 3 {
      var others := OtherBrandMatches(cars, viewed);
      assert forall i :: 0 <= i < |extras| ==> extras[i] == others[i];
    }
  }

  lemma ConcatBrands(viewed: MockCar, same: seq<MockCar>, extras: seq<MockCar>)
    requires forall i :: 0 <= i < |same| ==> SameBrandCandidate(viewed, same[i])
    requires forall i :: 0 <= i < |extras| ==> OtherBrandCandidate(viewed, extras[i])
    ensures forall c :: c in same + extras ==> IsAvailable(c) && c.id != viewed.id
    ensures forall i :: 0 <= i < |same + extras| ==> ((same + extras)[i].brand == viewed.brand <==> i < |same|)
    ensures (same + extras)[..|same|] == same && (same + extras)[|same|..] == extras
    ensures forall c :: c in same ==> c !in extras
  {
    var all := same + extras;
    forall i | 0 <= i < |all| ensures all[i] == if i < |same| then same[i] else extras[i - |same|] {
    }
  }

  /** A prefix of either brand group is taken from the catalogue in order. */
  lemma GroupIsSubseq(cars: seq<MockCar>, viewed: MockCar, sameBrand: bool, k: nat)
    ensures sameBrand ==> IsSubseq(Take(SameBrandMatches(cars, viewed), k), cars)
    ensures !sameBrand ==> IsSubseq(Take(OtherBrandMatches(cars, viewed), k), cars)
    ensures IsSubseq([], cars)
  {
    var group := if sameBrand then SameBrandMatches(cars, viewed) else OtherBrandMatches(cars, viewed);
    if sameBrand {
      FilterIsSubseq(cars, (c: MockCar) => SameBrandCandidate(viewed, c));
    } else {
      FilterIsSubseq(cars, (c: MockCar) => OtherBrandCandidate(viewed, c));
    }
    TakeIsSubseq(group, k);
    SubseqTransitive(Take(group, k), group, cars);
  }

  // ---------------------------------------------------------------------------
  // Gallery

  /** The left arrow: one image back, from the first to the last. An index
      beyond the images (one kept from a previous car) is only decremented, so
      it lands on an image only from just past the last one. */
  function PrevImage(p: nat, n: nat): (r: nat)
    requires 0 < n
    ensures r < n <==> p <= n
    ensures p >= n ==> r + 1 == p
  {
    if p == 0 then n - 1 else p - 1
  }

  /** The right arrow: one image on, from the last to the first. An index
      beyond the images only grows, so it never lands on an image again. */
  function NextImage(p: nat, n: nat): (r: nat)
    requires 0 < n
    ensures r < n <==> p < n
    ensures p >= n ==> r == p + 1
  {
    if p == n - 1 then 0 else p + 1
  }

  /** The index after `k` clicks on the right arrow. */
  function NextPresses(p: nat, n: nat, k: nat): nat
    requires 0 < n
  {
    if k == 0 then p else NextImage(NextPresses(p, n, k - 1), n)
  }

  /** From an index beyond the images, no number of right-arrow clicks reaches
      an image: each click moves one further away. */
  lemma {:induction false} StaleIndexStaysOff(p: nat, n: nat, k: nat)
    requires 0 < n <= p
    ensures NextPresses(p, n, k) == p + k
    ensures NextPresses(p, n, k) >= n
  {
    if k > 0 {
      StaleIndexStaysOff(p, n, k - 1);
    }
  }

  /** The arrows step around a ring of `n` images. */
  lemma ImageStepsAreModular(p: nat, n: nat)
    requires p < n
    ensures NextImage(p, n) == (p + 1) % n
    ensures PrevImage(p, n) == (p + n - 1) % n
  {
    if p == n - 1 {
      RemainderOf(p + 1, n, 1, 0);
    } else {
      RemainderOf(p + 1, n, 0, p + 1);
    }
    if p == 0 {
      RemainderOf(p + n - 1, n, 0, n - 1);
    } else {
      RemainderOf(p + n - 1, n, 1, p - 1);
    }
  }

  /** The remainder of `x` by `n` is the `r` of any division `x == q * n + r`
      with `0 <= r < n`. */
  lemma RemainderOf(x: int, n: int, q: int, r: int)
    requires 0 <= r < n && x == q * n + r
    ensures x % n == r
  {
    var d := q - x / n;
    assert d * n == x % n - r;
    assert -n < d * n < n;
    MultipleBelowDivisor(d, n);
  }

  lemma MultipleBelowDivisor(d: int, n: int)
    requires 0 < n && -n < d * n < n
    ensures d == 0
  {
  }

  /** Each arrow undoes the other. */
  lemma PrevNextInverse(p: nat, n: nat)
    requires p < n
    ensures PrevImage(NextImage(p, n), n) == p
    ensures NextImage(PrevImage(p, n), n) == p
  {
  }

  /** The `activeImage` state of the detail page, and the image count of the
      car it shows. The arrows are rendered only when the car has more than one
      image, and a thumbnail exists for each image. All cars share the one
      `/cars/:id` route, so following a link from one detail page to another
      keeps the component, and with it `activeImage`. */
  class Gallery {
    var imageCount: nat
    var activeImage: nat

    /** `car.images[activeImage]` is one of the car's images. */
    predicate OnImage()
      reads this
    {
      activeImage < imageCount
    }

    constructor(imageCount: nat)
      ensures this.imageCount == imageCount && activeImage == 0
      ensures imageCount > 0 ==> OnImage()
    {
      this.imageCount := imageCount;
      activeImage := 0;
    }

    method Prev()
      requires imageCount > 1
      modifies this
      ensures imageCount == old(imageCount)
      ensures activeImage == PrevImage(old(activeImage), imageCount)
      ensures old(OnImage()) ==> OnImage()
    {
      activeImage := if activeImage == 0 then imageCount - 1 else activeImage - 1;
    }

    method Next()
      requires imageCount > 1
      modifies this
      ensures imageCount == old(imageCount)
      ensures activeImage == NextImage(old(activeImage), imageCount)
      ensures OnImage() <==> old(OnImage())
    {
      activeImage := if activeImage == imageCount - 1 then 0 else activeImage + 1;
    }

    method Thumbnail(i: nat)
      requires i < imageCount
      modifies this
      ensures imageCount == old(imageCount)
      ensures activeImage == i && OnImage()
    {
      activeImage := i;
    }

    /** A "Similar Cars" card links to another car on the same route: the page
        shows that car's images and keeps the index it had. */
    method RouteChange(newImageCount: nat)
      modifies this
      ensures imageCount == newImageCount && activeImage == old(activeImage)
    {
      imageCount := newImageCount;
    }

    /** The evidently intended route change: the gallery starts again on the
        new car's first image, as it does when the page is first mounted. */
    method RouteChangeResetting(newImageCount: nat)
      modifies this
      ensures imageCount == newImageCount && activeImage == 0
      ensures newImageCount > 0 ==> OnImage()
    {
      imageCount := newImageCount;
      activeImage := 0;
    }
  }

  /** Three right-arrow clicks on a car with four images, then a link to a
      similar car with two: a route change as the page makes it, or the
      resetting one when `resetting` holds. */
  method VisitSimilarCar(resetting: bool) returns (g: Gallery)
    ensures fresh(g) && g.imageCount == 2
    ensures g.activeImage == if resetting then 0 else 3
  {
    g := new Gallery(4);
    g.Next();
    g.Next();
    g.Next();
    if resetting {
      g.RouteChangeResetting(2);
    } else {
      g.RouteChange(2);
    }
  }

  /** As written: after `VisitSimilarCar` the index shown is 3, past both of the
      new car's images, and the arrows then give 4 and 2, neither of them an
      image either. */
  method StaleIndexScenario() returns (shown: nat, count: nat, afterNext: nat, afterPrev: nat)
    ensures count == 2 && shown == 3 && shown >= count
    ensures afterNext == 4 && afterPrev == 2 && afterNext >= count && afterPrev >= count
  {
    var g := VisitSimilarCar(false);
    shown, count := g.activeImage, g.imageCount;
    g.Next();
    afterNext := g.activeImage;
    var h := VisitSimilarCar(false);
    h.Prev();
    afterPrev := h.activeImage;
  }

  /** Corrected: with the resetting route change the same clicks leave the index
      on an image of the new car, and later arrow clicks keep it there. */
  method ResetScenario() returns (shown: nat, count: nat, afterNext: nat, afterPrev: nat)
    ensures count == 2 && shown == 0
    ensures shown < count && afterNext < count && afterPrev < count
  {
    var g := VisitSimilarCar(true);
    shown, count := g.activeImage, g.imageCount;
    g.Next();
    afterNext := g.activeImage;
    g.Prev();
    g.Prev();
    afterPrev := g.activeImage;
  }
}
