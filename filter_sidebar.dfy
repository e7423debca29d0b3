/** The filter sidebar of src/components/FilterSidebar.tsx: single-field updates
    of the filter state, the option lists of its selects, and the price slider. */
module FilterSidebar {
  import opened Wrappers
  import opened Seqs
  import opened JsValues
  import opened MockModel

  // ---------------------------------------------------------------------------
  // update

  datatype FilterKey =
    | RegionKey | BrandKey | MinPriceKey | MaxPriceKey
    | YearKey | TransmissionKey | FuelTypeKey | ConditionKey

  datatype FilterValue = Text(text: string) | Number(number: int)

  predicate IsNumberKey(k: FilterKey) {
    k == MinPriceKey || k == MaxPriceKey
  }

  /** A value of the kind the field holds. */
  predicate Fits(k: FilterKey, v: FilterValue) {
    IsNumberKey(k) <==> v.Number?
  }

  function Get(f: FilterState, k: FilterKey): (v: FilterValue)
    ensures Fits(k, v)
  {
    match k
    case RegionKey => Text(f.region)
    case BrandKey => Text(f.brand)
    case MinPriceKey => Number(f.minPrice)
    case MaxPriceKey => Number(f.maxPrice)
    case YearKey => Text(f.year)
    case TransmissionKey => Text(f.transmission)
    case FuelTypeKey => Text(f.fuelType)
    case ConditionKey => Text(f.condition)
  }

  /** `onChange({ ...filters, [key]: value })`: exactly one field changes. */
  function Update(f: FilterState, k: FilterKey, v: FilterValue): (r: FilterState)
    requires Fits(k, v)
    ensures Get(r, k) == v
    ensures forall k' :: k' != k ==> Get(r, k') == Get(f, k')
  {
    match k
    case RegionKey => f.(region := v.text)
    case BrandKey => f.(brand := v.text)
    case MinPriceKey => f.(minPrice := v.number)
    case MaxPriceKey => f.(maxPrice := v.number)
    case YearKey => f.(year := v.text)
    case TransmissionKey => f.(transmission := v.text)
    case FuelTypeKey => f.(fuelType := v.text)
    case ConditionKey => f.(condition := v.text)
  }

  /** Two filter states that agree on every field are the same state. */
  lemma {:induction false} SameFieldsSameState(f: FilterState, g: FilterState)
    requires forall k :: Get(f, k) == Get(g, k)
    ensures f == g
  {
    assert Get(f, RegionKey) == Get(g, RegionKey) && Get(f, BrandKey) == Get(g, BrandKey);
    assert Get(f, MinPriceKey) == Get(g, MinPriceKey) && Get(f, MaxPriceKey) == Get(g, MaxPriceKey);
    assert Get(f, YearKey) == Get(g, YearKey) && Get(f, TransmissionKey) == Get(g, TransmissionKey);
    assert Get(f, FuelTypeKey) == Get(g, FuelTypeKey) && Get(f, ConditionKey) == Get(g, ConditionKey);
  }

  /** Writing a field's own value changes nothing, and a second write to the
      same field overrides the first. */
  lemma UpdateLaws(f: FilterState, k: FilterKey, v: FilterValue, w: FilterValue)
    requires Fits(k, v) && Fits(k, w)
    ensures Update(f, k, Get(f, k)) == f
    ensures Update(Update(f, k, v), k, w) == Update(f, k, w)
  {
    SameFieldsSameState(Update(f, k, Get(f, k)), f);
    SameFieldsSameState(Update(Update(f, k, v), k, w), Update(f, k, w));
  }

  // ---------------------------------------------------------------------------
  // Option lists

  /** `Array.from({ length: 15 }, (_, i) => String(currentYear - i))`. */
  function Years(currentYear: int): (ys: seq<string>)
    ensures |ys| == 15
  {
    seq(15, i => IntToString(currentYear - i))
  }

  const FuelTypes: seq<string> := ["Petrol", "Diesel", "Hybrid", "Electric"]
  const Transmissions: seq<string> := ["Manual", "Automatic"]
  const Conditions: seq<string> := ["New", "Used"]

  /** A select's options: the "all" sentinel, then the choices. */
  function SelectOptions(choices: seq<string>): (r: seq<string>)
    ensures |r| == |choices| + 1 && r[0] == "all" && r[1..] == choices
  {
    ["all"] + choices
  }

  /** The year list runs from the current year down, one year per entry. */
  lemma YearsDescend(currentYear: int)
    requires currentYear >= 14
    ensures forall i :: 0 <= i < 15 ==> ParseNumber(Years(currentYear)[i]) == Num(currentYear - i)
    ensures forall i, j :: 0 <= i < j < 15 ==>
              ParseNumber(Years(currentYear)[i]).n > ParseNumber(Years(currentYear)[j]).n
  {
    forall i | 0 <= i < 15 ensures ParseNumber(Years(currentYear)[i]) == Num(currentYear - i) {
      assert Years(currentYear)[i] == IntToString(currentYear - i) == Decimal(currentYear - i);
      ParseDecimal(currentYear - i);
    }
  }

  /** No two year options are the same text. */
  lemma YearsDistinct(currentYear: int)
    ensures NoDuplicates(Years(currentYear))
  {
    var ys := Years(currentYear);
    forall i, j | 0 <= i < j < 15 ensures ys[i] != ys[j] {
      if ys[i] == ys[j] {
        IntToStringInjective(currentYear - i, currentYear - j);
      }
    }
  }

  lemma IntToStringInjective(a: int, b: int)
    requires IntToString(a) == IntToString(b)
    ensures a == b
  {
    var s := IntToString(a);
    assert IsDigit(Decimal(if a < 0 then -a else a)[0]);
    assert IsDigit(Decimal(if b < 0 then -b else b)[0]);
    if a < 0 && b < 0 {
      assert Decimal(-a) == s[1..] == Decimal(-b);
      DecimalInjective(-a, -b);
    } else if a >= 0 && b >= 0 {
      DecimalInjective(a, b);
    }
  }

  /** The sentinel never collides with a real choice of any select whose
      choices are not supplied by the catalogue. */
  lemma SentinelIsNoChoice(currentYear: int)
    ensures "all" !in Years(currentYear)
    ensures "all" !in FuelTypes && "all" !in Transmissions && "all" !in Conditions
  {
    forall i | 0 <= i < 15 ensures Years(currentYear)[i] != "all" {
      var n := currentYear - i;
      assert Years(currentYear)[i] == IntToString(n);
      assert IsDigit(Decimal(if n < 0 then -n else n)[0]);
      assert IntToString(n)[0] != 'a';
    }
  }

  // ---------------------------------------------------------------------------
  // Price slider

  const SliderMin := 10_000_000
  const SliderMax := 250_000_000
  const SliderStep := 5_000_000

  /** A value the slider can take: between its bounds, on a step. */
  predicate OnSlider(v: int) {
    SliderMin <= v <= SliderMax && (v - SliderMin) % SliderStep == 0
  }

  /** The value of the slider's `stop`-th position. */
  function SliderValue(stop: nat): (v: int)
    requires stop <= (SliderMax - SliderMin) / SliderStep
    ensures OnSlider(v)
  {
    SliderMin + stop * SliderStep
  }

  /** The slider's positions are exactly its values. */
  lemma SliderStopsAreOnSlider(v: int)
    ensures OnSlider(v) <==> exists stop: nat :: stop <= 48 && v == SliderValue(stop)
  {
    if OnSlider(v) {
      var stop := (v - SliderMin) / SliderStep;
      assert v == SliderValue(stop);
    }
  }

  /** `onValueChange={([v]) => update('maxPrice', v)}`. */
  function SlideMaxPrice(f: FilterState, stop: nat): (r: FilterState)
    requires stop <= 48
    ensures r.maxPrice == SliderValue(stop) && OnSlider(r.maxPrice)
    ensures forall k :: k != MaxPriceKey ==> Get(r, k) == Get(f, k)
  {
    Update(f, MaxPriceKey, Number(SliderValue(stop)))
  }
}
