/** The listing as the public pages built on the local catalogue see it
    (src/lib/types.ts). Its status vocabulary is the three-valued
    `Available | Reserved | Sold`, kept apart from the persisted one. */
module MockModel {
  import opened Wrappers

  datatype MockStatus = Available | Reserved | Sold
  datatype FuelType = Petrol | Diesel | Hybrid | Electric
  datatype Transmission = Manual | Automatic
  datatype MockCondition = New | Used

  datatype MockCar = MockCar(
    id: string,
    title: string,
    brand: string,
    model: string,
    year: int,
    price: int,
    mileage: int,
    fuelType: FuelType,
    transmission: Transmission,
    condition: MockCondition,
    description: string,
    status: MockStatus,
    region: string,
    images: seq<string>,
    createdBy: Option<string>,
    createdAt: Option<string>)

  /** Offered for sale on the public pages. */
  predicate IsAvailable(c: MockCar) {
    c.status == Available
  }

  /** The sidebar's filter state; "all" is the no-constraint value of the text fields. */
  datatype FilterState = FilterState(
    region: string,
    brand: string,
    minPrice: int,
    maxPrice: int,
    year: string,
    transmission: string,
    fuelType: string,
    condition: string)
}
