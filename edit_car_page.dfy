/** The edit page of src/pages/admin/EditCarPage.tsx: the stored row as the
    form's defaults, and the update the form's submission sends. */
module EditCarPage {
  import opened Wrappers
  import opened JsValues
  import opened CarModel
  import opened UseCars
  import opened CarForm

  /** `x || ''` on a nullable text column. */
  function TextOrEmpty(x: Option<string>): (r: string)
    ensures r == "" <==> !TruthyText(x)
    ensures r != "" ==> x == Some(r)
  {
    if TruthyText(x) then x.value else ""
  }

  /** `car.seating_capacity || undefined`: null and 0 both leave the field unset. */
  function SeatingOrUnset(x: Option<int>): (r: Option<JsNumber>)
    ensures r.None? <==> (x.None? || x == Some(0))
    ensures r.Some? ==> r.value.Num? && x == Some(r.value.n)
  {
    if x.Some? && x.value != 0 then Some(Num(x.value)) else None
  }

  /** The defaults handed to the form for a stored row: the required fields as
      stored, the row's condition and status as their texts, and a value for
      every optional text field, so that saving writes each of them. */
  function EditDefaults(car: Car): (v: CarFormValues)
    ensures v.title == Some(car.title) && v.brand == Some(car.brand) && v.model == Some(car.model)
            && v.fuelType == Some(car.fuelType) && v.transmission == Some(car.transmission)
    ensures v.year == Some(Num(car.year)) && v.mileage == Some(Num(car.mileage)) && v.price == Some(Num(car.price))
    ensures v.condition == Some(ConditionText(car.condition)) && v.status == Some(StatusText(car.status))
    ensures v.description.Some? && v.engine.Some? && v.engineCapacity.Some? && v.color.Some?
            && v.countryOfImport.Some? && v.features.Some?
  {
    CarFormValues(
      title := Some(car.title),
      brand := Some(car.brand),
      model := Some(car.model),
      year := Some(Num(car.year)),
      mileage := Some(Num(car.mileage)),
      fuelType := Some(car.fuelType),
      transmission := Some(car.transmission),
      condition := Some(ConditionText(car.condition)),
      price := Some(Num(car.price)),
      description := Some(TextOrEmpty(car.description)),
      status := Some(StatusText(car.status)),
      engine := Some(TextOrEmpty(car.engine)),
      engineCapacity := Some(TextOrEmpty(car.engineCapacity)),
      color := Some(TextOrEmpty(car.color)),
      seatingCapacity := SeatingOrUnset(car.seatingCapacity),
      countryOfImport := Some(TextOrEmpty(car.countryOfImport)),
      features := Some(TextOrEmpty(car.features)))
  }

  /** The schema's demands on a stored row. */
  predicate StoredRowValid(car: Car, currentYear: int) {
    && car.title != "" && car.brand != "" && car.model != ""
    && car.fuelType != "" && car.transmission != ""
    && 1900 <= car.year <= currentYear + 1
    && car.mileage >= 0 && car.price >= 0
  }

  /** A stored seating capacity the form shows as a number: not null and not 0
      (`|| undefined` unsets both). */
  predicate SeatingShown(car: Car) {
    car.seatingCapacity.Some? && car.seatingCapacity.value != 0
  }

  /** The edit form as the page holds it once its inputs are mounted. */
  function EditForm(car: Car): CarFormValues {
    Mounted(EditDefaults(car))
  }

  /** The edit form under the evidently intended reading of an empty seating input. */
  function EditFormSeatingOptional(car: Car): CarFormValues {
    MountedSeatingOptional(EditDefaults(car))
  }

  /** As written, the form opened on a row passes the schema exactly when the
      row meets it and has a seating capacity other than null and 0: otherwise
      the empty seating input holds NaN. */
  lemma EditDefaultsValid(car: Car, currentYear: int)
    ensures ValidCarForm(EditForm(car), currentYear) <==> StoredRowValid(car, currentYear) && SeatingShown(car)
  {
  }

  /** Corrected: when an empty seating input leaves the field unset, the form
      passes the schema exactly when the row meets it. */
  lemma EditDefaultsValidSeatingOptional(car: Car, currentYear: int)
    ensures ValidCarForm(EditFormSeatingOptional(car), currentYear) <==> StoredRowValid(car, currentYear)
  {
  }

  /** The row as an unedited save leaves it: null optional text columns become ''. */
  function NullsToEmpty(car: Car): Car {
    car.(
      description := Some(TextOrEmpty(car.description)),
      engine := Some(TextOrEmpty(car.engine)),
      engineCapacity := Some(TextOrEmpty(car.engineCapacity)),
      color := Some(TextOrEmpty(car.color)),
      countryOfImport := Some(TextOrEmpty(car.countryOfImport)),
      features := Some(TextOrEmpty(car.features)))
  }

  /** `{ id: id!, ...data }`: the route's id and the submitted data. */
  function UpdatePayload(routeId: string, v: CarFormValues, currentYear: int): (r: UpdateRequest)
    requires ValidCarForm(v, currentYear)
    ensures r.id == routeId
    ensures r.patch == SubmittedData(v, currentYear)
  {
    UpdateRequest(routeId, SubmittedData(v, currentYear))
  }

  /** The patch a valid unedited form submits carries the row's condition and status. */
  lemma SubmittedEnums(car: Car, v: CarFormValues, currentYear: int)
    requires ValidCarForm(v, currentYear)
    requires v.condition == Some(ConditionText(car.condition)) && v.status == Some(StatusText(car.status))
    ensures SubmittedData(v, currentYear).condition == Some(car.condition)
    ensures SubmittedData(v, currentYear).status == Some(car.status)
  {
    match car.condition {
      case New =>
      case Used =>
    }
    match car.status {
      case Available =>
      case Sold =>
    }
  }

  /** As written: saving the form unedited, which the page allows only for a row
      with a seating capacity shown, writes every column back as it was, except
      that null optional text columns are stored as ''. */
  lemma UnchangedSaveRoundTrip(car: Car, currentYear: int)
    requires StoredRowValid(car, currentYear) && SeatingShown(car)
    ensures ValidCarForm(EditForm(car), currentYear)
    ensures ApplyPatch(car, SubmittedData(EditForm(car), currentYear)) == NullsToEmpty(car)
  {
    EditDefaultsValid(car, currentYear);
    SubmittedEnums(car, EditForm(car), currentYear);
  }

  /** Corrected: with seating truly optional, every row that meets the schema
      can be saved unedited, with the same result; a null or 0 seating capacity
      is not sent and stays as stored. */
  lemma UnchangedSaveRoundTripSeatingOptional(car: Car, currentYear: int)
    requires StoredRowValid(car, currentYear)
    ensures ValidCarForm(EditFormSeatingOptional(car), currentYear)
    ensures ApplyPatch(car, SubmittedData(EditFormSeatingOptional(car), currentYear)) == NullsToEmpty(car)
  {
    EditDefaultsValidSeatingOptional(car, currentYear);
    SubmittedEnums(car, EditFormSeatingOptional(car), currentYear);
  }

  /** On the table, an unedited save touches only the row with the route's id. */
  lemma UnchangedSaveOnTable(rows: seq<Car>, routeId: string, car: Car, currentYear: int)
    requires StoredRowValid(car, currentYear) && SeatingShown(car)
    requires forall c :: c in rows && c.id == routeId ==> c == car
    ensures ValidCarForm(EditForm(car), currentYear)
    ensures var rows' := UpdateRows(rows, UpdatePayload(routeId, EditForm(car), currentYear));
            forall i :: 0 <= i < |rows| ==>
              rows'[i] == (if rows[i].id == routeId then NullsToEmpty(car) else rows[i])
  {
    UnchangedSaveRoundTrip(car, currentYear);
    var rows' := UpdateRows(rows, UpdatePayload(routeId, EditForm(car), currentYear));
    forall i | 0 <= i < |rows|
      ensures rows'[i] == (if rows[i].id == routeId then NullsToEmpty(car) else rows[i])
    {
      if rows[i].id == routeId {
        assert rows[i] in rows;
      }
    }
  }
}
