/** Plausibility checks of the state-table scraper (lib/myFuelSourceBatch.ts):
    per-fuel price ranges, the median of a price list and the test that flags
    a price far from that median. */
module BatchValidation {
  import opened Common
  import opened Sorting

  datatype FuelType = Petrol | Diesel | Lpg | Cng

  /** getExpectedFuelRange */
  function MinPrice(fuel: FuelType): real {
    match fuel
    case Lpg => 100.0
    case Cng => 10.0
    case _ => 30.0
  }

  function MaxPrice(fuel: FuelType): real {
    match fuel
    case Lpg => 2500.0
    case _ => 300.0
  }

  /** isValidFuelPrice: present and inside the inclusive range of its fuel. */
  predicate IsValidFuelPrice(fuel: FuelType, price: Option<real>) {
    price.Some? && MinPrice(fuel) <= price.value <= MaxPrice(fuel)
  }

  /** The ranges, written out per fuel. */
  lemma ValidRanges(price: real)
    ensures IsValidFuelPrice(Lpg, Some(price)) <==> 100.0 <= price <= 2500.0
    ensures IsValidFuelPrice(Cng, Some(price)) <==> 10.0 <= price <= 300.0
    ensures IsValidFuelPrice(Petrol, Some(price)) <==> 30.0 <= price <= 300.0
    ensures IsValidFuelPrice(Diesel, Some(price)) <==> 30.0 <= price <= 300.0
    ensures !IsValidFuelPrice(Petrol, None) && !IsValidFuelPrice(Diesel, None)
    ensures !IsValidFuelPrice(Lpg, None) && !IsValidFuelPrice(Cng, None)
  {
  }

  /** `isValidFuelPrice(fuel, p) ? p : null` */
  function ValidOrNull(fuel: FuelType, price: Option<real>): (r: Option<real>)
    ensures r.Some? <==> IsValidFuelPrice(fuel, price)
    ensures r.Some? ==> r == price
  {
    if IsValidFuelPrice(fuel, price) then price else None
  }

  // ---------------------------------------------------------------------
  // Median

  /** median: null for no values, else the middle of the ascending order
      (the mean of the two middle values for an even count). */
  function Median(nums: seq<real>): (r: Option<real>)
    ensures r.None? <==> nums == []
  {
    Middle(Sort(nums, RealLe))
  }

  /** The middle of an ascending list. */
  function Middle(xs: seq<real>): Option<real>
  {
    if |xs| == 0 then None
    else
      var mid := |xs| / 2;
      if |xs| % 2 == 1 then Some(xs[mid]) else Some((xs[mid - 1] + xs[mid]) / 2.0)
  }

  /** The median does not depend on the order of the values. */
  lemma MedianPermutationInvariant(a: seq<real>, b: seq<real>)
    requires multiset(a) == multiset(b)
    ensures Median(a) == Median(b)
  {
    SortRealUnique(a, b);
  }

  /** Values with the same multiset sort to the same list. */
  lemma SortRealUnique(a: seq<real>, b: seq<real>)
    requires multiset(a) == multiset(b)
    ensures Sort(a, RealLe) == Sort(b, RealLe)
  {
    RealLeTotalPreorder();
    SortSorted(a, RealLe);
    SortSorted(b, RealLe);
    SortedUnique(Sort(a, RealLe), Sort(b, RealLe), RealLe);
  }

  /** On sorted input the median is read off directly. */
  lemma MedianOfSorted(xs: seq<real>)
    requires xs != []
    requires forall i, j :: 0 <= i < j < |xs| ==> xs[i] <= xs[j]
    ensures Median(xs) == if |xs| % 2 == 1 then Some(xs[|xs| / 2])
                          else Some((xs[|xs| / 2 - 1] + xs[|xs| / 2]) / 2.0)
  {
    SortOfAscending(xs);
    assert Median(xs) == Middle(xs);
  }

  /** Ascending values sort to themselves. */
  lemma SortOfAscending(xs: seq<real>)
    requires forall i, j :: 0 <= i < j < |xs| ==> xs[i] <= xs[j]
    ensures Sort(xs, RealLe) == xs
  {
    RealLeTotalPreorder();
    SortSorted(xs, RealLe);
    assert SortedBy(xs, RealLe);
    SortedUnique(Sort(xs, RealLe), xs, RealLe);
  }

  /** The median lies between the smallest and the largest value. */
  lemma MedianBounds(nums: seq<real>)
    requires nums != []
    ensures exists i :: 0 <= i < |nums| && nums[i] <= Median(nums).value
    ensures exists j :: 0 <= j < |nums| && Median(nums).value <= nums[j]
  {
    var xs := Sort(nums, RealLe);
    RealLeTotalPreorder();
    SortSorted(nums, RealLe);
    var mid := |xs| / 2;
    var lo := if |xs| % 2 == 1 then mid else mid - 1;
    assert xs[lo] <= Median(nums).value <= xs[mid];
    assert xs[lo] in multiset(nums) && xs[mid] in multiset(nums);
    var i :| 0 <= i < |nums| && nums[i] == xs[lo];
    var j :| 0 <= j < |nums| && nums[j] == xs[mid];
  }

  // ---------------------------------------------------------------------
  // Outliers

  /** The relative tolerance around the median for each fuel. */
  function Tolerance(fuel: FuelType): real {
    match fuel
    case Lpg => 0.35
    case Cng => 0.5
    case _ => 0.25
  }

  function Abs(x: real): real { if x < 0.0 then -x else x }

  /** isSuspectByMedian: never without a positive median; otherwise the
      relative distance |p - m| / m exceeds the fuel's tolerance. */
  predicate IsSuspectByMedian(fuel: FuelType, price: real, med: Option<real>) {
    med.Some? && med.value > 0.0 && Abs(price - med.value) / med.value > Tolerance(fuel)
  }

  /** A suspect is exactly a price outside the band m·(1 ± tolerance). */
  lemma SuspectIffOutsideBand(fuel: FuelType, price: real, m: real)
    requires m > 0.0
    ensures IsSuspectByMedian(fuel, price, Some(m))
        <==> price < m * (1.0 - Tolerance(fuel)) || price > m * (1.0 + Tolerance(fuel))
  {
    DivAbove(Abs(price - m), m, Tolerance(fuel));
  }

  lemma DivAbove(d: real, m: real, t: real)
    requires m > 0.0
    ensures d / m > t <==> d > t * m
  {
    var q := d / m;
    assert q * m == d;
    if q > t {
      assert (q - t) * m > 0.0;
    } else {
      assert (t - q) * m >= 0.0;
    }
  }

  lemma NeverSuspectWithoutMedian(fuel: FuelType, price: real, med: Option<real>)
    requires med.None? || med.value <= 0.0
    ensures !IsSuspectByMedian(fuel, price, med)
  {
  }
}
