/** The public listing page of src/pages/CarsPage.tsx: the filters read from the
    query string, the count of active filters, and the two count texts. */
module CarsPage {
  import opened Wrappers
  import opened Seqs
  import opened JsValues
  import opened CarModel
  import opened UseCars

  /** The query string as its name/value pairs, in order. */
  type SearchParams = seq<(string, string)>

  /** `searchParams.get(name)`: the value of the first pair with that name, or null. */
  function GetParam(params: SearchParams, name: string): (r: Option<string>)
    ensures r.None? <==> forall i :: 0 <= i < |params| ==> params[i].0 != name
    ensures r.Some? ==> exists i :: 0 <= i < |params| && params[i] == (name, r.value)
                                    && forall j :: 0 <= j < i ==> params[j].0 != name
  {
    match FirstIndex(params, (p: (string, string)) => p.0 == name)
    case None => None
    case Some(i) => Some(params[i].1)
  }

  /** `searchParams.get(name) || undefined`: a missing or empty value is dropped. */
  function TextParam(v: Option<string>): (r: Option<string>)
    ensures r.Some? <==> TruthyText(v)
    ensures r.Some? ==> r == v
  {
    if TruthyText(v) then v else None
  }

  /** `searchParams.get(name) ? Number(searchParams.get(name)) : undefined`. */
  function NumberParam(v: Option<string>): (r: Option<JsNumber>)
    ensures r.Some? <==> TruthyText(v)
    ensures r.Some? ==> r.value == ParseNumber(v.value)
  {
    if TruthyText(v) then Some(ParseNumber(v.value)) else None
  }

  /** A numeric parameter that gives an active filter: non-empty, and neither
      0 nor NaN once read with `Number()`. */
  predicate ActiveNumberText(v: Option<string>) {
    TruthyText(v) && TruthyNumber(ParseNumber(v.value))
  }

  /** The filters object the page hands to the public listing, with each
      filter numbered in the listing's order: a text filter is active iff its
      parameter is non-empty, a numeric one iff its parameter gives a number
      other than 0. */
  function ParseFilters(params: SearchParams): (f: PublicFilters)
    ensures Active(f, 0) <==> TruthyText(GetParam(params, "brand"))
    ensures Active(f, 1) <==> ActiveNumberText(GetParam(params, "minPrice"))
    ensures Active(f, 2) <==> ActiveNumberText(GetParam(params, "maxPrice"))
    ensures Active(f, 3) <==> ActiveNumberText(GetParam(params, "minYear"))
    ensures Active(f, 4) <==> ActiveNumberText(GetParam(params, "maxYear"))
    ensures Active(f, 5) <==> TruthyText(GetParam(params, "transmission"))
  {
    PublicFilters(
      brand := TextParam(GetParam(params, "brand")),
      minPrice := NumberParam(GetParam(params, "minPrice")),
      maxPrice := NumberParam(GetParam(params, "maxPrice")),
      minYear := NumberParam(GetParam(params, "minYear")),
      maxYear := NumberParam(GetParam(params, "maxYear")),
      transmission := TextParam(GetParam(params, "transmission")))
  }

  /** A present text filter is never empty and is the first parameter of its
      name; a numeric filter is present iff its parameter is non-empty, and is
      then `Number()` of that parameter. */
  lemma ParsedFilters(params: SearchParams)
    ensures var f := ParseFilters(params);
            && (f.brand.Some? <==> TruthyText(f.brand))
            && (f.transmission.Some? <==> TruthyText(f.transmission))
            && (f.brand.Some? ==> GetParam(params, "brand") == f.brand)
            && (f.transmission.Some? ==> GetParam(params, "transmission") == f.transmission)
    ensures var f := ParseFilters(params);
            NumberFilterRead(f.minPrice, GetParam(params, "minPrice"))
            && NumberFilterRead(f.maxPrice, GetParam(params, "maxPrice"))
            && NumberFilterRead(f.minYear, GetParam(params, "minYear"))
            && NumberFilterRead(f.maxYear, GetParam(params, "maxYear"))
  {
  }

  /** A numeric filter as read from its parameter: present iff the parameter is
      non-empty, and then its `Number()`. */
  predicate NumberFilterRead(x: Option<JsNumber>, param: Option<string>) {
    && (x.Some? <==> TruthyText(param))
    && (x.Some? ==> x.value == ParseNumber(param.value))
  }

  /** The page reads back the decimal text of a non-negative bound exactly. */
  lemma NumericParamRoundTrip(n: nat)
    ensures NumberParam(Some(Decimal(n))) == Some(Num(n))
  {
    ParseDecimal(n);
  }

  /** A query string without filter parameters lists every available car. */
  lemma EmptyQueryNoFilters(params: SearchParams)
    requires forall i :: 0 <= i < |params| ==> params[i].0 !in {"brand", "transmission", "minPrice", "maxPrice", "minYear", "maxYear"}
    ensures ParseFilters(params) == NoFilters
  {
  }

  // ---------------------------------------------------------------------------
  // activeFilterCount

  function Indicator(b: bool): nat {
    if b then 1 else 0
  }

  /** The truthy values among the first `k` filters, numbered in the order the
      listing applies them. */
  ghost function ActiveAmong(f: PublicFilters, k: nat): set<nat> {
    set i: nat | i < k && Active(f, i)
  }

  /** How many of the first `k` filters are truthy. */
  function CountActive(f: PublicFilters, k: nat): nat {
    if k == 0 then 0 else CountActive(f, k - 1) + Indicator(Active(f, k - 1))
  }

  /** The truthy filters among the first `k` are as many as the constraints the
      listing adds for them after its status constraint. */
  lemma {:induction false} CountActiveUpTo(f: PublicFilters, k: nat)
    ensures |ActiveAmong(f, k)| == CountActive(f, k)
    ensures |Expected(f, k)| == CountActive(f, k) + 1
  {
    if k == 0 {
      assert ActiveAmong(f, 0) == {};
    } else {
      CountActiveUpTo(f, k - 1);
      if Active(f, k - 1) {
        assert ActiveAmong(f, k) == ActiveAmong(f, k - 1) + {k - 1};
      } else {
        assert ActiveAmong(f, k) == ActiveAmong(f, k - 1);
      }
    }
  }

  lemma CountActiveSix(f: PublicFilters)
    ensures CountActive(f, 6)
         == Indicator(TruthyText(f.brand)) + Indicator(TruthyOptNumber(f.minPrice))
            + Indicator(TruthyOptNumber(f.maxPrice)) + Indicator(TruthyOptNumber(f.minYear))
            + Indicator(TruthyOptNumber(f.maxYear)) + Indicator(TruthyText(f.transmission))
  {
    assert Active(f, 0) == TruthyText(f.brand) && Active(f, 1) == TruthyOptNumber(f.minPrice);
    assert Active(f, 2) == TruthyOptNumber(f.maxPrice) && Active(f, 3) == TruthyOptNumber(f.minYear);
    assert Active(f, 4) == TruthyOptNumber(f.maxYear) && Active(f, 5) == TruthyText(f.transmission);
    assert CountActive(f, 1) == Indicator(Active(f, 0));
    assert CountActive(f, 2) == CountActive(f, 1) + Indicator(Active(f, 1));
    assert CountActive(f, 3) == CountActive(f, 2) + Indicator(Active(f, 2));
    assert CountActive(f, 4) == CountActive(f, 3) + Indicator(Active(f, 3));
    assert CountActive(f, 5) == CountActive(f, 4) + Indicator(Active(f, 4));
  }

  /** `Object.values(filters).filter(Boolean).length`: the number of the six
      filters holding a truthy value, which is the number of constraints the
      listing's query adds to its status constraint. */
  function ActiveFilterCount(f: PublicFilters): (n: nat)
    ensures n <= 6
    ensures n == |ActiveAmong(f, 6)|
    ensures n + 1 == |Expected(f, 6)|
  {
    CountActiveUpTo(f, 6);
    CountActiveSix(f);
    Indicator(TruthyText(f.brand)) + Indicator(TruthyText(f.transmission))
    + Indicator(TruthyOptNumber(f.minPrice)) + Indicator(TruthyOptNumber(f.maxPrice))
    + Indicator(TruthyOptNumber(f.minYear)) + Indicator(TruthyOptNumber(f.maxYear))
  }

  /** The count is zero exactly when the filters constrain no car: every value it
      skips (undefined, '', 0, NaN) is one the listing ignores, and every value it
      counts excludes some car. */
  lemma NoActiveFilters(f: PublicFilters)
    ensures ActiveFilterCount(f) == 0 <==> forall c :: MatchesFilters(c, f)
  {
    if ActiveFilterCount(f) != 0 {
      var w := Unmatched(f);
      assert !MatchesFilters(w, f);
    }
  }

  /** A car that the first active filter rejects. */
  function Unmatched(f: PublicFilters): (w: Car)
    requires ActiveFilterCount(f) != 0
    ensures !MatchesFilters(w, f)
  {
    var base := Car("", "", "", "", 0, 0, "", "", New, 0, None, Available,
                    None, None, None, None, None, None, 0, None, 0);
    if TruthyText(f.brand) then base.(brand := f.brand.value + "?")
    else if TruthyOptNumber(f.minPrice) then base.(price := f.minPrice.value.n - 1)
    else if TruthyOptNumber(f.maxPrice) then base.(price := f.maxPrice.value.n + 1)
    else if TruthyOptNumber(f.minYear) then base.(year := f.minYear.value.n - 1)
    else if TruthyOptNumber(f.maxYear) then base.(year := f.maxYear.value.n + 1)
    else base.(transmission := f.transmission.value + "?")
  }

  /** With no active filter the page shows the unfiltered public listing. */
  lemma NoActiveFiltersListsAllAvailable(rows: seq<Car>, f: PublicFilters)
    requires ActiveFilterCount(f) == 0
    ensures PublicCars(rows, f) == PublicCars(rows, NoFilters)
  {
    NoActiveFilters(f);
    FilterCongruent(rows, c => Listed(c, f), c => Listed(c, NoFilters));
  }

  // ---------------------------------------------------------------------------
  // Count texts

  /** "{n} filter{s} active", shown only when some filter is active. */
  function FilterBadge(count: nat): (t: Option<string>)
    ensures t.None? <==> count == 0
    ensures t.Some? ==> exists digits, noun ::
              && t.value == digits + " " + noun + " active"
              && ParseNumber(digits) == Num(count)
              && (|digits| == 1 || digits[0] != '0')
              && (noun == "filter" || noun == "filters")
              && (noun == "filters" <==> count > 1)
  {
    if count == 0 then None
    else
      var noun := if count > 1 then "filters" else "filter";
      ParseDecimal(count);
      Some(Decimal(count) + " " + noun + " active")
  }

  /** "Showing {n} car(s)", shown only when the listing is non-empty. */
  function ShowingText(n: nat): (t: Option<string>)
    ensures t.None? <==> n == 0
    ensures t.Some? ==> exists digits, noun ::
              && t.value == "Showing " + digits + " " + noun
              && ParseNumber(digits) == Num(n)
              && (|digits| == 1 || digits[0] != '0')
              && (noun == "car" || noun == "cars")
              && (noun == "car" <==> n == 1)
  {
    if n == 0 then None
    else
      var noun := if n == 1 then "car" else "cars";
      ParseDecimal(n);
      Some("Showing " + Decimal(n) + " " + noun)
  }
}
