/** The data hooks of src/hooks/useCars.ts, with the backend's `cars` table as
    a sequence of rows and its object store as a set of keys. A query is the
    list of column constraints the hook chains onto the request; running it
    keeps the rows satisfying every constraint, newest `created_at` first. */
module UseCars {
  import opened Wrappers
  import opened Seqs
  import opened JsValues
  import opened CarModel

  // ---------------------------------------------------------------------------
  // Queries

  datatype Column = StatusColumn | BrandColumn | TransmissionColumn | PriceColumn | YearColumn

  /** `.eq(column, text)`, `.gte(column, bound)` and `.lte(column, bound)`. */
  datatype Constraint =
    | Eq(column: Column, text: string)
    | Gte(column: Column, bound: int)
    | Lte(column: Column, bound: int)

  function TextColumn(c: Car, column: Column): Option<string> {
    match column
    case StatusColumn => Some(StatusText(c.status))
    case BrandColumn => Some(c.brand)
    case TransmissionColumn => Some(c.transmission)
    case _ => None
  }

  function NumberColumn(c: Car, column: Column): Option<int> {
    match column
    case PriceColumn => Some(c.price)
    case YearColumn => Some(c.year)
    case _ => None
  }

  predicate Holds(c: Car, k: Constraint) {
    match k
    case Eq(column, text) => TextColumn(c, column) == Some(text)
    case Gte(column, bound) => NumberColumn(c, column).Some? && NumberColumn(c, column).value >= bound
    case Lte(column, bound) => NumberColumn(c, column).Some? && NumberColumn(c, column).value <= bound
  }

  predicate HoldsAll(c: Car, query: seq<Constraint>) {
    forall k :: k in query ==> Holds(c, k)
  }

  /** `.order('created_at', { ascending: false })`. */
  ghost predicate NewestFirst(s: seq<Car>) {
    forall i, j :: 0 <= i < j < |s| ==> s[i].createdAt >= s[j].createdAt
  }

  function InsertNewest(c: Car, s: seq<Car>): (r: seq<Car>)
    requires NewestFirst(s)
    ensures NewestFirst(r)
    ensures multiset(r) == multiset(s) + multiset{c}
    ensures r[0] == c || (s != [] && r[0] == s[0])
  {
    if s == [] || s[0].createdAt <= c.createdAt then
      ConsNewest(c, s);
      [c] + s
    else
      assert s == [s[0]] + s[1..];
      var rest := InsertNewest(c, s[1..]);
      ConsNewest(s[0], rest);
      [s[0]] + rest
  }

  /** A row no older than the head of a newest-first list can go in front of it. */
  lemma ConsNewest(h: Car, s: seq<Car>)
    requires NewestFirst(s)
    requires s == [] || s[0].createdAt <= h.createdAt
    ensures NewestFirst([h] + s)
  {
    if s != [] {
      assert forall j :: 0 <= j < |s| ==> s[j].createdAt <= s[0].createdAt;
    }
  }

  /** The order the backend returns rows in. Rows with equal timestamps keep
      their table order; the backend leaves that order unspecified. */
  function SortNewestFirst(s: seq<Car>): (r: seq<Car>)
    ensures NewestFirst(r)
    ensures multiset(r) == multiset(s)
  {
    if s == [] then []
    else
      assert s == [s[0]] + s[1..];
      InsertNewest(s[0], SortNewestFirst(s[1..]))
  }

  /** Executing a query against the table. */
  function RunQuery(rows: seq<Car>, query: seq<Constraint>): (r: seq<Car>)
    ensures NewestFirst(r)
    ensures forall c :: c in r <==> c in rows && HoldsAll(c, query)
    ensures multiset(r) == multiset(Filter(rows, c => HoldsAll(c, query)))
    ensures multiset(r) <= multiset(rows)
  {
    var matching := Filter(rows, c => HoldsAll(c, query));
    SameMultisetSameMembers(SortNewestFirst(matching), matching);
    SortNewestFirst(matching)
  }

  // ---------------------------------------------------------------------------
  // usePublicCars and useAdminCars

  /** The optional filters `usePublicCars` accepts; an absent filters object
      behaves as `NoFilters`. */
  datatype PublicFilters = PublicFilters(
    brand: Option<string>,
    minPrice: Option<JsNumber>,
    maxPrice: Option<JsNumber>,
    minYear: Option<JsNumber>,
    maxYear: Option<JsNumber>,
    transmission: Option<string>)

  const NoFilters := PublicFilters(None, None, None, None, None, None)

  /** The reference meaning of a filter object: every truthy field constrains
      the car, every falsy one (undefined, '', 0, NaN) is ignored. */
  predicate MatchesFilters(c: Car, f: PublicFilters) {
    MatchesUpTo(c, f, 6)
  }

  /** The first `n` of the filter tests, in the order the hook applies them. */
  predicate MatchesUpTo(c: Car, f: PublicFilters, n: nat) {
    && (n >= 1 && TruthyText(f.brand) ==> c.brand == f.brand.value)
    && (n >= 2 && TruthyOptNumber(f.minPrice) ==> c.price >= f.minPrice.value.n)
    && (n >= 3 && TruthyOptNumber(f.maxPrice) ==> c.price <= f.maxPrice.value.n)
    && (n >= 4 && TruthyOptNumber(f.minYear) ==> c.year >= f.minYear.value.n)
    && (n >= 5 && TruthyOptNumber(f.maxYear) ==> c.year <= f.maxYear.value.n)
    && (n >= 6 && TruthyText(f.transmission) ==> c.transmission == f.transmission.value)
  }

  /** Shown on the public site under these filters. */
  predicate Listed(c: Car, f: PublicFilters) {
    c.status == Available && MatchesFilters(c, f)
  }

  /** What the public listing returns: exactly the available cars meeting every
      active filter, as many times as the table holds them, newest first. */
  function PublicCars(rows: seq<Car>, f: PublicFilters): (r: seq<Car>)
    ensures NewestFirst(r)
    ensures forall c :: c in r <==> c in rows && Listed(c, f)
    ensures forall c :: multiset(r)[c] == if Listed(c, f) then multiset(rows)[c] else 0
    ensures multiset(r) <= multiset(rows)
  {
    var listed := Filter(rows, c => Listed(c, f));
    SameMultisetSameMembers(SortNewestFirst(listed), listed);
    forall c ensures multiset(listed)[c] == if Listed(c, f) then multiset(rows)[c] else 0 {
      FilterCount(rows, c => Listed(c, f), c);
    }
    SortNewestFirst(listed)
  }

  /** The hook's query, narrowed one truthy filter at a time. */
  method BuildPublicQuery(f: PublicFilters) returns (query: seq<Constraint>)
    ensures 1 <= |query| <= 7 && query[0] == Eq(StatusColumn, "available")
    ensures forall c :: HoldsAll(c, query) <==> Listed(c, f)
  {
    query := [Eq(StatusColumn, "available")];
    if TruthyText(f.brand) {
      query := query + [Eq(BrandColumn, f.brand.value)];
    }
    assert query == Expected(f, 1);
    if TruthyOptNumber(f.minPrice) {
      query := query + [Gte(PriceColumn, f.minPrice.value.n)];
    }
    assert query == Expected(f, 2);
    if TruthyOptNumber(f.maxPrice) {
      query := query + [Lte(PriceColumn, f.maxPrice.value.n)];
    }
    assert query == Expected(f, 3);
    if TruthyOptNumber(f.minYear) {
      query := query + [Gte(YearColumn, f.minYear.value.n)];
    }
    assert query == Expected(f, 4);
    if TruthyOptNumber(f.maxYear) {
      query := query + [Lte(YearColumn, f.maxYear.value.n)];
    }
    assert query == Expected(f, 5);
    if TruthyText(f.transmission) {
      query := query + [Eq(TransmissionColumn, f.transmission.value)];
    }
    assert query == Expected(f, 6);
    ExpectedTracks(f, 6);
    TracksEveryFilter(query, f);
  }

  /** Whether the hook applies its `n`-th filter, and the constraint it adds. */
  predicate Active(f: PublicFilters, n: nat) {
    match n
    case 0 => TruthyText(f.brand)
    case 1 => TruthyOptNumber(f.minPrice)
    case 2 => TruthyOptNumber(f.maxPrice)
    case 3 => TruthyOptNumber(f.minYear)
    case 4 => TruthyOptNumber(f.maxYear)
    case _ => TruthyText(f.transmission)
  }

  function FilterConstraint(f: PublicFilters, n: nat): Constraint
    requires Active(f, n)
  {
    match n
    case 0 => Eq(BrandColumn, f.brand.value)
    case 1 => Gte(PriceColumn, f.minPrice.value.n)
    case 2 => Lte(PriceColumn, f.maxPrice.value.n)
    case 3 => Gte(YearColumn, f.minYear.value.n)
    case 4 => Lte(YearColumn, f.maxYear.value.n)
    case _ => Eq(TransmissionColumn, f.transmission.value)
  }

  /** The query after the status constraint and the first `n` filter steps. */
  function Expected(f: PublicFilters, n: nat): (q: seq<Constraint>)
    ensures 1 <= |q| <= n + 1 && q[0] == Eq(StatusColumn, "available")
  {
    if n == 0 then [Eq(StatusColumn, "available")]
    else if Active(f, n - 1) then Expected(f, n - 1) + [FilterConstraint(f, n - 1)]
    else Expected(f, n - 1)
  }

  /** A query selects the available cars passing the first `n` filter tests. */
  ghost predicate Tracks(query: seq<Constraint>, f: PublicFilters, n: nat) {
    forall c :: HoldsAll(c, query) <==> c.status == Available && MatchesUpTo(c, f, n)
  }

  lemma StatusConstraintHolds(f: PublicFilters)
    ensures Tracks([Eq(StatusColumn, "available")], f, 0)
  {
    var k := Eq(StatusColumn, "available");
    forall c ensures HoldsAll(c, [k]) <==> c.status == Available {
      assert k in [k];
      assert StatusText(Sold) != "available";
    }
  }

  lemma NarrowStep(query: seq<Constraint>, f: PublicFilters, n: nat)
    requires n < 6 && Tracks(query, f, n)
    ensures Tracks(if Active(f, n) then query + [FilterConstraint(f, n)] else query, f, n + 1)
  {
    forall c ensures MatchesUpTo(c, f, n + 1) <==> MatchesUpTo(c, f, n) && (Active(f, n) ==> Holds(c, FilterConstraint(f, n))) {
    }
    if Active(f, n) {
      HoldsAllSnoc(query, FilterConstraint(f, n));
    }
  }

  lemma {:induction false} ExpectedTracks(f: PublicFilters, n: nat)
    requires n <= 6
    ensures Tracks(Expected(f, n), f, n)
  {
    if n == 0 {
      StatusConstraintHolds(f);
    } else {
      ExpectedTracks(f, n - 1);
      NarrowStep(Expected(f, n - 1), f, n - 1);
    }
  }

  lemma TracksEveryFilter(query: seq<Constraint>, f: PublicFilters)
    requires Tracks(query, f, 6)
    ensures forall c :: HoldsAll(c, query) <==> Listed(c, f)
  {
  }

  lemma HoldsAllSnoc(query: seq<Constraint>, k: Constraint)
    ensures forall c :: HoldsAll(c, query + [k]) <==> HoldsAll(c, query) && Holds(c, k)
  {
    forall c ensures HoldsAll(c, query + [k]) <==> HoldsAll(c, query) && Holds(c, k) {
      assert forall k' :: k' in query + [k] <==> k' in query || k' == k;
    }
  }

  /** `usePublicCars(filters)`: build the query, then run it. */
  method UsePublicCars(rows: seq<Car>, f: PublicFilters) returns (data: seq<Car>)
    ensures data == PublicCars(rows, f)
  {
    var query := BuildPublicQuery(f);
    data := RunQuery(rows, query);
    FilterCongruent(rows, c => HoldsAll(c, query), c => Listed(c, f));
  }

  /** `useAdminCars()`: every row whatever its status, newest first. */
  function AdminCars(rows: seq<Car>): (r: seq<Car>)
    ensures NewestFirst(r)
    ensures multiset(r) == multiset(rows)
  {
    FilterAll(rows, c => HoldsAll(c, []));
    RunQuery(rows, [])
  }

  /** With no filters the public listing is every available car. */
  lemma NoFiltersListsAllAvailable(rows: seq<Car>)
    ensures PublicCars(rows, NoFilters) == SortNewestFirst(Filter(rows, (c: Car) => c.status == Available))
  {
    FilterCongruent(rows, c => Listed(c, NoFilters), (c: Car) => c.status == Available);
  }

  /** Filters only narrow the listing: no car appears more often than with no filters. */
  lemma FiltersOnlyNarrow(rows: seq<Car>, f: PublicFilters)
    ensures multiset(PublicCars(rows, f)) <= multiset(PublicCars(rows, NoFilters))
  {
    FilterMonotone(rows, c => Listed(c, f), c => Listed(c, NoFilters));
  }

  // ---------------------------------------------------------------------------
  // useUpdateCar: a partial update of the row with the given id

  /** `Partial<Car>` without the id: `None` is a field the caller left out. */
  datatype CarPatch = CarPatch(
    title: Option<string>,
    brand: Option<string>,
    model: Option<string>,
    year: Option<int>,
    mileage: Option<int>,
    fuelType: Option<string>,
    transmission: Option<string>,
    condition: Option<Condition>,
    price: Option<int>,
    description: Option<Option<string>>,
    status: Option<Status>,
    engine: Option<Option<string>>,
    engineCapacity: Option<Option<string>>,
    color: Option<Option<string>>,
    seatingCapacity: Option<Option<int>>,
    countryOfImport: Option<Option<string>>,
    features: Option<Option<string>>,
    createdAt: Option<nat>,
    createdBy: Option<Option<string>>,
    updatedAt: Option<nat>)

  const NoChanges := CarPatch(None, None, None, None, None, None, None, None, None, None,
                              None, None, None, None, None, None, None, None, None, None)

  /** The mutation's argument `{ id, ...carData }`. */
  datatype UpdateRequest = UpdateRequest(id: string, patch: CarPatch)

  /** The columns of a row other than its id, and what they hold. */
  datatype Field =
    | TitleField | BrandField | ModelField | YearField | MileageField | FuelTypeField
    | TransmissionField | ConditionField | PriceField | DescriptionField | StatusField
    | EngineField | EngineCapacityField | ColorField | SeatingCapacityField
    | CountryOfImportField | FeaturesField | CreatedAtField | CreatedByField | UpdatedAtField

  datatype FieldValue =
    | Text(text: string)
    | NullableText(nullableText: Option<string>)
    | Int(number: int)
    | NullableInt(nullableInt: Option<int>)
    | Cond(condition: Condition)
    | Stat(status: Status)

  function Get(c: Car, field: Field): FieldValue {
    match field
    case TitleField => Text(c.title)
    case BrandField => Text(c.brand)
    case ModelField => Text(c.model)
    case YearField => Int(c.year)
    case MileageField => Int(c.mileage)
    case FuelTypeField => Text(c.fuelType)
    case TransmissionField => Text(c.transmission)
    case ConditionField => Cond(c.condition)
    case PriceField => Int(c.price)
    case DescriptionField => NullableText(c.description)
    case StatusField => Stat(c.status)
    case EngineField => NullableText(c.engine)
    case EngineCapacityField => NullableText(c.engineCapacity)
    case ColorField => NullableText(c.color)
    case SeatingCapacityField => NullableInt(c.seatingCapacity)
    case CountryOfImportField => NullableText(c.countryOfImport)
    case FeaturesField => NullableText(c.features)
    case CreatedAtField => Int(c.createdAt)
    case CreatedByField => NullableText(c.createdBy)
    case UpdatedAtField => Int(c.updatedAt)
  }

  /** The value the patch supplies for a field, if any. */
  function Supplied(p: CarPatch, field: Field): Option<FieldValue> {
    match field
    case TitleField => if p.title.Some? then Some(Text(p.title.value)) else None
    case BrandField => if p.brand.Some? then Some(Text(p.brand.value)) else None
    case ModelField => if p.model.Some? then Some(Text(p.model.value)) else None
    case YearField => if p.year.Some? then Some(Int(p.year.value)) else None
    case MileageField => if p.mileage.Some? then Some(Int(p.mileage.value)) else None
    case FuelTypeField => if p.fuelType.Some? then Some(Text(p.fuelType.value)) else None
    case TransmissionField => if p.transmission.Some? then Some(Text(p.transmission.value)) else None
    case ConditionField => if p.condition.Some? then Some(Cond(p.condition.value)) else None
    case PriceField => if p.price.Some? then Some(Int(p.price.value)) else None
    case DescriptionField => if p.description.Some? then Some(NullableText(p.description.value)) else None
    case StatusField => if p.status.Some? then Some(Stat(p.status.value)) else None
    case EngineField => if p.engine.Some? then Some(NullableText(p.engine.value)) else None
    case EngineCapacityField => if p.engineCapacity.Some? then Some(NullableText(p.engineCapacity.value)) else None
    case ColorField => if p.color.Some? then Some(NullableText(p.color.value)) else None
    case SeatingCapacityField => if p.seatingCapacity.Some? then Some(NullableInt(p.seatingCapacity.value)) else None
    case CountryOfImportField => if p.countryOfImport.Some? then Some(NullableText(p.countryOfImport.value)) else None
    case FeaturesField => if p.features.Some? then Some(NullableText(p.features.value)) else None
    case CreatedAtField => if p.createdAt.Some? then Some(Int(p.createdAt.value)) else None
    case CreatedByField => if p.createdBy.Some? then Some(NullableText(p.createdBy.value)) else None
    case UpdatedAtField => if p.updatedAt.Some? then Some(Int(p.updatedAt.value)) else None
  }

  /** `.update(carData)` applied to one row; the id is never part of the patch. */
  function ApplyPatch(c: Car, p: CarPatch): (r: Car)
    ensures r.id == c.id
    ensures p == NoChanges ==> r == c
  {
    c.(
      title := p.title.GetOr(c.title),
      brand := p.brand.GetOr(c.brand),
      model := p.model.GetOr(c.model),
      year := p.year.GetOr(c.year),
      mileage := p.mileage.GetOr(c.mileage),
      fuelType := p.fuelType.GetOr(c.fuelType),
      transmission := p.transmission.GetOr(c.transmission),
      condition := p.condition.GetOr(c.condition),
      price := p.price.GetOr(c.price),
      description := p.description.GetOr(c.description),
      status := p.status.GetOr(c.status),
      engine := p.engine.GetOr(c.engine),
      engineCapacity := p.engineCapacity.GetOr(c.engineCapacity),
      color := p.color.GetOr(c.color),
      seatingCapacity := p.seatingCapacity.GetOr(c.seatingCapacity),
      countryOfImport := p.countryOfImport.GetOr(c.countryOfImport),
      features := p.features.GetOr(c.features),
      createdAt := p.createdAt.GetOr(c.createdAt),
      createdBy := p.createdBy.GetOr(c.createdBy),
      updatedAt := p.updatedAt.GetOr(c.updatedAt))
  }

  /** An update writes exactly the supplied fields; the id and every field the
      caller left out keep their values. */
  lemma PatchWritesOnlySuppliedFields(c: Car, p: CarPatch, field: Field)
    ensures ApplyPatch(c, p).id == c.id
    ensures Get(ApplyPatch(c, p), field) == Supplied(p, field).GetOr(Get(c, field))
  {
    match field
    case TitleField =>
    case BrandField =>
    case ModelField =>
    case YearField =>
    case MileageField =>
    case FuelTypeField =>
    case TransmissionField =>
    case ConditionField =>
    case PriceField =>
    case DescriptionField =>
    case StatusField =>
    case EngineField =>
    case EngineCapacityField =>
    case ColorField =>
    case SeatingCapacityField =>
    case CountryOfImportField =>
    case FeaturesField =>
    case CreatedAtField =>
    case CreatedByField =>
    case UpdatedAtField =>
  }

  /** The table after `.update(carData).eq('id', id)`. */
  function UpdateRows(rows: seq<Car>, req: UpdateRequest): (r: seq<Car>)
    ensures |r| == |rows|
    ensures forall i :: 0 <= i < |rows| ==> r[i].id == rows[i].id
    ensures forall i :: 0 <= i < |rows| && rows[i].id != req.id ==> r[i] == rows[i]
    ensures forall i :: 0 <= i < |rows| && rows[i].id == req.id ==> r[i] == ApplyPatch(rows[i], req.patch)
  {
    seq(|rows|, i requires 0 <= i < |rows| =>
      if rows[i].id == req.id then ApplyPatch(rows[i], req.patch) else rows[i])
  }

  /** The new table and the row `.select().single()` hands back; an id that
      matches no row makes the mutation fail. */
  datatype UpdateOutcome = UpdateOutcome(rows: seq<Car>, returned: Option<Car>)

  function UpdateCar(rows: seq<Car>, req: UpdateRequest): (o: UpdateOutcome)
    ensures o.rows == UpdateRows(rows, req)
    ensures o.returned.None? <==> forall c :: c in rows ==> c.id != req.id
    ensures o.returned.Some? ==> o.returned.value in o.rows && o.returned.value.id == req.id
  {
    var updated := UpdateRows(rows, req);
    match FirstIndex(rows, (c: Car) => c.id == req.id)
    case None => UpdateOutcome(updated, None)
    case Some(i) => UpdateOutcome(updated, Some(updated[i]))
  }

  /** `useDeleteCar`: `.delete().eq('id', id)`. */
  function DeleteCarRows(rows: seq<Car>, id: string): (r: seq<Car>)
    ensures forall c :: c in r <==> c in rows && c.id != id
    ensures multiset(r) <= multiset(rows)
  {
    Filter(rows, (c: Car) => c.id != id)
  }

  // ---------------------------------------------------------------------------
  // useUploadCarImage and useDeleteCarImage: object keys in the `car-images` bucket

  /** `name.split('.').pop()`: the text after the last dot, or the whole name. */
  function FileExtension(name: string): (ext: string)
    ensures '.' !in ext
    ensures |ext| <= |name| && ext == name[|name| - |ext|..]
    ensures '.' in name ==> |ext| < |name| && name[|name| - |ext| - 1] == '.'
    ensures '.' !in name ==> ext == name
  {
    name[ExtensionStart(name, |name|)..]
  }

  /** Where the text after the last dot before position `j` starts. */
  function ExtensionStart(name: string, j: nat): (k: nat)
    requires j <= |name| && forall m :: j <= m < |name| ==> name[m] != '.'
    ensures k <= j && forall m :: k <= m < |name| ==> name[m] != '.'
    ensures k == 0 || name[k - 1] == '.'
  {
    if j == 0 || name[j - 1] == '.' then j else ExtensionStart(name, j - 1)
  }

  /** The object key an upload is stored under: `${carId}/${Date.now()}.${fileExt}`.
      It lies in the car's folder and names a digit stamp that reads back as the
      upload time, followed by the file's extension. */
  function UploadPath(carId: string, now: nat, fileName: string): (path: string)
    ensures |carId| < |path| && path[..|carId| + 1] == carId + "/"
    ensures exists stamp :: && path == carId + "/" + stamp + "." + FileExtension(fileName)
                            && ParseNumber(stamp) == Num(now) && '.' !in stamp
  {
    var stamp := Decimal(now);
    ParseDecimal(now);
    assert '.' !in stamp by {
      forall m | 0 <= m < |stamp| ensures stamp[m] != '.' {
        assert IsDigit(stamp[m]);
      }
    }
    assert (carId + "/" + stamp + "." + FileExtension(fileName))[..|carId| + 1] == carId + "/";
    carId + "/" + stamp + "." + FileExtension(fileName)
  }

  const Marker := "/car-images/"

  predicate MarkerAt(s: string, i: int) {
    0 <= i && i + |Marker| <= |s| && s[i..i + |Marker|] == Marker
  }

  predicate NoMarker(s: string) {
    forall i :: 0 <= i <= |s| - |Marker| ==> !MarkerAt(s, i)
  }

  /** The first occurrence of the marker at or after `from`. */
  function FindMarker(s: string, from: nat): (r: Option<nat>)
    requires from <= |s|
    ensures r.Some? ==> from <= r.value && MarkerAt(s, r.value)
    ensures r.Some? ==> forall j :: from <= j < r.value ==> !MarkerAt(s, j)
    ensures r.None? ==> forall j :: from <= j ==> !MarkerAt(s, j)
    decreases |s| - from
  {
    if from + |Marker| > |s| then None
    else if MarkerAt(s, from) then Some(from)
    else FindMarker(s, from + 1)
  }

  /** `imageUrl.split('/car-images/')[1]` when the split has more than one part:
      the text between the first marker and the next one (or the end). */
  function StorageKey(url: string): (key: Option<string>)
    ensures key.None? <==> NoMarker(url)
    ensures key.Some? ==> NoMarker(key.value)
    ensures key.Some? ==> exists i: nat, j: nat :: SplitPart(url, i, j) && key.value == url[i + |Marker|..j]
  {
    match FindMarker(url, 0)
    case None => None
    case Some(i) =>
      var start := i + |Marker|;
      match FindMarker(url, start)
      case None =>
        MarkerFreeSlice(url, start, |url|);
        assert url[start..] == url[start..|url|];
        assert SplitPart(url, i, |url|);
        Some(url[start..])
      case Some(j) =>
        MarkerFreeSlice(url, start, j);
        assert SplitPart(url, i, j);
        Some(url[start..j])
  }

  /** The second part of `url.split(Marker)` runs from the end of the first
      marker, at `i`, to `j`: the next marker after it, or the end of the URL. */
  ghost predicate SplitPart(url: string, i: nat, j: nat) {
    && MarkerAt(url, i)
    && (forall m :: 0 <= m < i ==> !MarkerAt(url, m))
    && i + |Marker| <= j <= |url|
    && (forall m :: i + |Marker| <= m < j ==> !MarkerAt(url, m))
    && (j == |url| || MarkerAt(url, j))
  }

  /** The first marker and the end of the part after it are determined by the
      URL, so the key `StorageKey` describes is the only one. */
  lemma SplitPartUnique(url: string, i: nat, j: nat, i': nat, j': nat)
    requires SplitPart(url, i, j) && SplitPart(url, i', j')
    ensures i == i' && j == j'
  {
  }

  lemma MarkerFreeSlice(s: string, lo: nat, hi: nat)
    requires lo <= hi <= |s|
    requires forall j :: lo <= j < hi ==> !MarkerAt(s, j)
    ensures NoMarker(s[lo..hi])
  {
    forall k | 0 <= k <= hi - lo - |Marker| ensures !MarkerAt(s[lo..hi], k) {
      var window, original := s[lo..hi][k..k + |Marker|], s[lo + k..lo + k + |Marker|];
      forall m | 0 <= m < |Marker| ensures window[m] == original[m] {
      }
      assert window == original;
      assert !MarkerAt(s, lo + k);
    }
  }

  /** The public URL the storage service hands out for an object key. */
  function PublicUrl(prefix: string, path: string): string {
    prefix + Marker + path
  }

  /** Deleting an image finds the key its URL was made from, when neither the
      URL's prefix nor the key contains the marker. */
  lemma StorageKeyOfPublicUrl(prefix: string, path: string)
    requires NoMarker(prefix + "/car-images")
    requires NoMarker(path)
    ensures StorageKey(PublicUrl(prefix, path)) == Some(path)
  {
    var url := PublicUrl(prefix, path);
    var p := |prefix|;
    var start := p + |Marker|;
    assert url[p..start] == Marker;
    assert MarkerAt(url, p);
    forall j | 0 <= j < p ensures !MarkerAt(url, j) {
      assert url[j..j + |Marker|] == (prefix + "/car-images")[j..j + |Marker|];
      assert !MarkerAt(prefix + "/car-images", j);
    }
    forall j | start <= j ensures !MarkerAt(url, j) {
      if j + |Marker| <= |url| {
        assert url[j..j + |Marker|] == path[j - start..j - start + |Marker|];
        assert !MarkerAt(path, j - start);
      }
    }
    assert FindMarker(url, 0) == Some(p);
    assert FindMarker(url, start).None?;
    assert url[start..] == path;
  }

  /** An upload path contains the marker nowhere when neither the car id nor the
      file name contains a slash: its only slash follows the car id. */
  lemma UploadPathHasNoMarker(carId: string, now: nat, fileName: string)
    requires '/' !in carId && '/' !in fileName
    ensures NoMarker(UploadPath(carId, now, fileName))
  {
    var tail := Decimal(now) + "." + FileExtension(fileName);
    SlashFreeTail(now, fileName);
    SlashOnlyAfterId(carId, tail);
    UploadPathSplits(carId, now, fileName);
    SingleSlashNoMarker(carId + "/" + tail, |carId|);
  }

  lemma UploadPathSplits(carId: string, now: nat, fileName: string)
    ensures UploadPath(carId, now, fileName) == carId + "/" + (Decimal(now) + "." + FileExtension(fileName))
  {
  }

  /** The marker holds two slashes, so a text with at most one holds no marker. */
  lemma SingleSlashNoMarker(s: string, k: nat)
    requires forall m :: 0 <= m < |s| && s[m] == '/' ==> m == k
    ensures NoMarker(s)
  {
    forall i | 0 <= i <= |s| - |Marker| ensures !MarkerAt(s, i) {
      assert s[i..i + |Marker|][0] == s[i];
      assert s[i..i + |Marker|][|Marker| - 1] == s[i + |Marker| - 1];
    }
  }

  lemma SlashFreeTail(now: nat, fileName: string)
    requires '/' !in fileName
    ensures '/' !in Decimal(now) + "." + FileExtension(fileName)
  {
    var digits, ext := Decimal(now), FileExtension(fileName);
    assert '/' !in digits by {
      forall m | 0 <= m < |digits| ensures digits[m] != '/' {
        assert IsDigit(digits[m]);
      }
    }
    assert '/' !in ext by {
      forall m | 0 <= m < |ext| ensures ext[m] != '/' {
        assert ext[m] == fileName[|fileName| - |ext| + m];
      }
    }
  }

  lemma SlashOnlyAfterId(carId: string, tail: string)
    requires '/' !in carId && '/' !in tail
    ensures forall m :: 0 <= m < |carId + "/" + tail| && (carId + "/" + tail)[m] == '/' ==> m == |carId|
  {
  }

  /** The image a car's upload produced can be deleted from storage: the key
      recovered from its public URL is the key it was uploaded under. */
  lemma DeleteFindsUploadedObject(prefix: string, carId: string, now: nat, fileName: string)
    requires NoMarker(prefix + "/car-images")
    requires '/' !in carId && '/' !in fileName
    ensures StorageKey(PublicUrl(prefix, UploadPath(carId, now, fileName))) == Some(UploadPath(carId, now, fileName))
  {
    UploadPathHasNoMarker(carId, now, fileName);
    StorageKeyOfPublicUrl(prefix, UploadPath(carId, now, fileName));
  }

  /** What `useDeleteCarImage` leaves behind: the key whose removal it asked
      for (if any), the objects still stored, the `car_images` rows, and
      whether the mutation failed. */
  datatype ImageDeletion = ImageDeletion(
    removedKey: Option<string>,
    objects: set<string>,
    images: seq<CarImage>,
    failed: bool)

  /** The storage removal runs only when the URL holds the marker and its result
      is ignored; the row delete runs in every case and alone decides failure. */
  function DeleteCarImage(
    imageId: string, imageUrl: string, objects: set<string>, images: seq<CarImage>,
    storageRemoves: bool, rowDeleteSucceeds: bool): (d: ImageDeletion)
    ensures d.removedKey == StorageKey(imageUrl)
    ensures d.removedKey.None? ==> d.objects == objects
    ensures storageRemoves && d.removedKey.Some? ==> d.objects == objects - {d.removedKey.value}
    ensures !storageRemoves ==> d.objects == objects
    ensures d.objects <= objects
    ensures forall o :: o in objects && o !in d.objects ==> d.removedKey == Some(o)
    ensures forall img :: img in d.images <==> img in images && (rowDeleteSucceeds ==> img.id != imageId)
    ensures d.failed <==> !rowDeleteSucceeds
  {
    var key := StorageKey(imageUrl);
    var objects' := if key.Some? && storageRemoves then objects - {key.value} else objects;
    var images' := if rowDeleteSucceeds then Filter(images, (img: CarImage) => img.id != imageId) else images;
    ImageDeletion(key, objects', images', !rowDeleteSucceeds)
  }
}
