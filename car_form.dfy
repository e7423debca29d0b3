/** The admin car form of src/components/admin/CarForm.tsx: the schema its values
    must satisfy, its initial values, and the data it submits. */
module CarForm {
  import opened Wrappers
  import opened JsValues
  import opened CarModel
  import opened UseCars

  /** The values the form holds when it is submitted. Text inputs and selects hold
      strings and number inputs hold numbers (NaN when left empty); `None` is a
      field the form was never given a value for. */
  datatype CarFormValues = CarFormValues(
    title: Option<string>,
    brand: Option<string>,
    model: Option<string>,
    year: Option<JsNumber>,
    mileage: Option<JsNumber>,
    fuelType: Option<string>,
    transmission: Option<string>,
    condition: Option<string>,
    price: Option<JsNumber>,
    description: Option<string>,
    status: Option<string>,
    engine: Option<string>,
    engineCapacity: Option<string>,
    color: Option<string>,
    seatingCapacity: Option<JsNumber>,
    countryOfImport: Option<string>,
    features: Option<string>)

  /** `z.string().min(1)`. */
  predicate RequiredText(v: Option<string>) {
    v.Some? && |v.value| >= 1
  }

  /** `z.number().min(lo)`: NaN is not a number to the schema. */
  predicate NumberAtLeast(v: Option<JsNumber>, lo: int) {
    v.Some? && v.value.Num? && v.value.n >= lo
  }

  /** `z.number().optional()`. */
  predicate OptionalNumber(v: Option<JsNumber>) {
    v.None? || v.value.Num?
  }

  /** `carSchema`, with `new Date().getFullYear()` as `currentYear`. The optional
      text fields accept any string or none. */
  predicate ValidCarForm(v: CarFormValues, currentYear: int) {
    && RequiredText(v.title)
    && RequiredText(v.brand)
    && RequiredText(v.model)
    && NumberAtLeast(v.year, 1900) && v.year.value.n <= currentYear + 1
    && NumberAtLeast(v.mileage, 0)
    && RequiredText(v.fuelType)
    && RequiredText(v.transmission)
    && (v.condition == Some("New") || v.condition == Some("Used"))
    && NumberAtLeast(v.price, 0)
    && (v.status == Some("available") || v.status == Some("sold"))
    && OptionalNumber(v.seatingCapacity)
  }

  const NoValues := CarFormValues(None, None, None, None, None, None, None, None, None,
                                  None, None, None, None, None, None, None, None)

  /** The defaults the form starts from when its caller supplies none. */
  function BuiltInDefaults(currentYear: int): CarFormValues {
    NoValues.(
      condition := Some("Used"),
      status := Some("available"),
      year := Some(Num(currentYear)),
      mileage := Some(Num(0)),
      price := Some(Num(0)),
      brand := Some(""),
      fuelType := Some(""),
      transmission := Some(""))
  }

  /** `defaultValues || { ... }`: any supplied object replaces the built-in
      defaults as a whole. */
  function InitialValues(defaultValues: Option<CarFormValues>, currentYear: int): (v: CarFormValues)
    ensures defaultValues.Some? ==> v == defaultValues.value
    ensures defaultValues.None? ==> v.condition == Some("Used") && v.status == Some("available")
                                    && v.year == Some(Num(currentYear))
                                    && v.mileage == Some(Num(0)) && v.price == Some(Num(0))
                                    && v.brand == Some("") && v.fuelType == Some("") && v.transmission == Some("")
                                    && v.title.None? && v.model.None?
  {
    match defaultValues
    case Some(d) => d
    case None => BuiltInDefaults(currentYear)
  }

  /** The values the form holds once its inputs are mounted. A registered text
      input without a value reads as '', and a registered number input without
      one reads as NaN (`valueAsNumber` of an empty input). The selects (brand,
      fuel type, transmission, condition, status) are driven by the form state
      and keep what they were given. */
  function Mounted(v: CarFormValues): (w: CarFormValues)
    ensures w.title == Some(v.title.GetOr("")) && w.model == Some(v.model.GetOr(""))
    ensures w.year == Some(v.year.GetOr(NaN)) && w.mileage == Some(v.mileage.GetOr(NaN))
            && w.price == Some(v.price.GetOr(NaN))
    ensures w.seatingCapacity == Some(v.seatingCapacity.GetOr(NaN))
    ensures w.description == Some(v.description.GetOr("")) && w.engine == Some(v.engine.GetOr(""))
            && w.engineCapacity == Some(v.engineCapacity.GetOr("")) && w.color == Some(v.color.GetOr(""))
            && w.countryOfImport == Some(v.countryOfImport.GetOr("")) && w.features == Some(v.features.GetOr(""))
    ensures w.brand == v.brand && w.fuelType == v.fuelType && w.transmission == v.transmission
            && w.condition == v.condition && w.status == v.status
  {
    v.(
      title := Some(v.title.GetOr("")),
      model := Some(v.model.GetOr("")),
      year := Some(v.year.GetOr(NaN)),
      mileage := Some(v.mileage.GetOr(NaN)),
      price := Some(v.price.GetOr(NaN)),
      description := Some(v.description.GetOr("")),
      engine := Some(v.engine.GetOr("")),
      engineCapacity := Some(v.engineCapacity.GetOr("")),
      color := Some(v.color.GetOr("")),
      seatingCapacity := Some(v.seatingCapacity.GetOr(NaN)),
      countryOfImport := Some(v.countryOfImport.GetOr("")),
      features := Some(v.features.GetOr("")))
  }

  /** The evidently intended reading of the seating input: left empty, it
      leaves the optional field unset instead of holding NaN. */
  function MountedSeatingOptional(v: CarFormValues): (w: CarFormValues)
    ensures w.seatingCapacity == v.seatingCapacity
    ensures w.(seatingCapacity := Mounted(v).seatingCapacity) == Mounted(v)
  {
    Mounted(v).(seatingCapacity := v.seatingCapacity)
  }

  /** The values the form validates when the user submits it unedited. */
  function FormValues(defaultValues: Option<CarFormValues>, currentYear: int): CarFormValues {
    Mounted(InitialValues(defaultValues, currentYear))
  }

  /** A fresh form cannot be submitted: its title, brand, model, fuel type and
      transmission are missing or empty. */
  lemma FreshFormInvalid(currentYear: int)
    ensures !ValidCarForm(FormValues(None, currentYear), currentYear)
  {
  }

  /** A fresh form as the user fills it in: the five required texts, and the
      seating input, which holds NaN while it is left empty. */
  function FilledIn(currentYear: int, title: string, brand: string, model: string,
                    fuelType: string, transmission: string, seating: JsNumber): CarFormValues
  {
    FormValues(None, currentYear).(
      title := Some(title), brand := Some(brand), model := Some(model),
      fuelType := Some(fuelType), transmission := Some(transmission),
      seatingCapacity := Some(seating))
  }

  /** As written, a fresh form passes the schema iff the five texts are
      non-empty and a seating capacity is entered: the optional field is
      required in effect. */
  lemma FreshFormNeedsTextAndSeating(currentYear: int, title: string, brand: string, model: string,
                                     fuelType: string, transmission: string, seating: JsNumber)
    requires currentYear >= 1900
    ensures ValidCarForm(FilledIn(currentYear, title, brand, model, fuelType, transmission, seating), currentYear)
         <==> title != "" && brand != "" && model != "" && fuelType != "" && transmission != ""
              && seating.Num?
  {
  }

  /** As written: with the seating input left empty, no filling-in of the other
      fields makes a fresh form submittable. */
  lemma EmptySeatingBlocksSubmit(currentYear: int, title: string, brand: string, model: string,
                                 fuelType: string, transmission: string)
    ensures !ValidCarForm(FilledIn(currentYear, title, brand, model, fuelType, transmission, NaN), currentYear)
  {
  }

  /** Corrected: when an empty seating input leaves the field unset, filling in
      the five required texts is all a fresh form needs. */
  lemma FreshFormNeedsOnlyText(currentYear: int, title: string, brand: string, model: string,
                               fuelType: string, transmission: string)
    requires currentYear >= 1900
    ensures ValidCarForm(MountedSeatingOptional(InitialValues(None, currentYear)).(
              title := Some(title), brand := Some(brand), model := Some(model),
              fuelType := Some(fuelType), transmission := Some(transmission)), currentYear)
         <==> title != "" && brand != "" && model != "" && fuelType != "" && transmission != ""
  {
  }

  /** Because supplied defaults are not merged with the built-in ones, supplied
      defaults that leave out the condition or the status keep the form invalid
      until the user picks one. */
  lemma SuppliedDefaultsNotMerged(d: CarFormValues, currentYear: int)
    requires d.condition.None? || d.status.None?
    ensures !ValidCarForm(FormValues(Some(d), currentYear), currentYear)
  {
  }

  /** The data `handleSubmit` passes on for a valid form, as the partial row it
      becomes: every schema field the form holds a value for, and no bookkeeping
      column. */
  function SubmittedData(v: CarFormValues, currentYear: int): (p: CarPatch)
    requires ValidCarForm(v, currentYear)
    ensures p.createdAt.None? && p.createdBy.None? && p.updatedAt.None?
    ensures p.title.Some? && p.brand.Some? && p.model.Some? && p.year.Some? && p.mileage.Some?
            && p.fuelType.Some? && p.transmission.Some? && p.condition.Some? && p.price.Some?
            && p.status.Some?
    ensures 1900 <= p.year.value <= currentYear + 1 && p.mileage.value >= 0 && p.price.value >= 0
    ensures v.condition == Some(ConditionText(p.condition.value))
    ensures v.status == Some(StatusText(p.status.value))
    ensures p.title == v.title && p.brand == v.brand && p.model == v.model
            && p.fuelType == v.fuelType && p.transmission == v.transmission
    ensures v.year == Some(Num(p.year.value)) && v.mileage == Some(Num(p.mileage.value))
            && v.price == Some(Num(p.price.value))
    ensures SentAsIs(p.description, v.description) && SentAsIs(p.engine, v.engine)
            && SentAsIs(p.engineCapacity, v.engineCapacity) && SentAsIs(p.color, v.color)
            && SentAsIs(p.countryOfImport, v.countryOfImport) && SentAsIs(p.features, v.features)
    ensures p.seatingCapacity.None? <==> v.seatingCapacity.None?
    ensures p.seatingCapacity.Some? ==>
              p.seatingCapacity.value.Some? && v.seatingCapacity == Some(Num(p.seatingCapacity.value.value))
  {
    CarPatch(
      title := v.title,
      brand := v.brand,
      model := v.model,
      year := Some(v.year.value.n),
      mileage := Some(v.mileage.value.n),
      fuelType := v.fuelType,
      transmission := v.transmission,
      condition := Some(if v.condition == Some("New") then New else Used),
      price := Some(v.price.value.n),
      description := Present(v.description),
      status := Some(if v.status == Some("available") then Available else Sold),
      engine := Present(v.engine),
      engineCapacity := Present(v.engineCapacity),
      color := Present(v.color),
      seatingCapacity := if v.seatingCapacity.Some? then Some(Some(v.seatingCapacity.value.n)) else None,
      countryOfImport := Present(v.countryOfImport),
      features := Present(v.features),
      createdAt := None,
      createdBy := None,
      updatedAt := None)
  }

  /** An optional text field as the patch carries it: sent iff the form holds
      a value for it, and then that value. */
  predicate SentAsIs(w: Option<Option<string>>, v: Option<string>) {
    (w.None? <==> v.None?) && (w.Some? ==> w.value == v)
  }

  /** An optional text value as a nullable column write: absent values are not
      sent, present ones are written as they are. */
  function Present(v: Option<string>): Option<Option<string>> {
    if v.Some? then Some(Some(v.value)) else None
  }
}
