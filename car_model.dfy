/** The persisted listing: the `cars` and `car_images` rows of the backend
    (src/lib/supabase.ts). Its status vocabulary is the two-valued
    `available | sold`. */
module CarModel {
  import opened Wrappers

  datatype Condition = New | Used
  datatype Status = Available | Sold

  /** The text stored in the `status` column. */
  function StatusText(s: Status): string {
    match s
    case Available => "available"
    case Sold => "sold"
  }

  function ConditionText(c: Condition): string {
    match c
    case New => "New"
    case Used => "Used"
  }

  /** A `cars` row. Nullable columns are `Option`s; `createdAt` and `updatedAt`
      are the instants of the row's timestamps, which order the listings. */
  datatype Car = Car(
    id: string,
    title: string,
    brand: string,
    model: string,
    year: int,
    mileage: int,
    fuelType: string,
    transmission: string,
    condition: Condition,
    price: int,
    description: Option<string>,
    status: Status,
    engine: Option<string>,
    engineCapacity: Option<string>,
    color: Option<string>,
    seatingCapacity: Option<int>,
    countryOfImport: Option<string>,
    features: Option<string>,
    createdAt: nat,
    createdBy: Option<string>,
    updatedAt: nat)

  /** A `car_images` row. */
  datatype CarImage = CarImage(
    id: string,
    carId: string,
    imageUrl: string,
    displayOrder: int,
    createdAt: nat)
}
