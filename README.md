# Car dealership site: a Dafny model of its core

The site is a React/TypeScript single-page application. It sells cars for a dealership and has:
- a public catalogue with a home page, a filtered listing, detail pages and a contact form;
- an admin area where the inventory is edited.

Its data lives in a hosted Postgres table `cars`, a table `car_images` and a storage bucket `car-images`. The app reaches them through hooks in `src/hooks/useCars.ts`.

This project models the logic of those hooks and of the pages and components that decide what is shown and what is written:

- **Data hooks** (`UseCars`):
  - The table is a sequence of `Car` rows, and a query is a list of equality and range constraints. `RunQuery` returns the matching rows newest first.
  - `BuildPublicQuery` narrows the query one truthy filter at a time, as `usePublicCars` does, and is proved to select exactly the available cars that meet every active filter.
  - Updates are partial patches applied to the rows with the given id. Deletes remove them.
  - For images, the upload path and the key recovered from a public URL are modelled. The key that a deletion recovers is proved to be the key of the upload.
- **Dashboard** (`Dashboard`):
  - The status toggle, the inventory statistics, and the confirm-delete dialog.
  - The dialog is a class whose `deleteId` state changes as the page's handlers change it.
- **Public pages**:
  - The home page's featured cars (`IndexPage`).
  - The detail page's lookup, "similar cars" selection and image gallery (`CarDetail`).
  - The listing page's reading of the query string, its active-filter count and its count texts (`CarsPage`).
  - The contact form (`ContactPage`).
- **Admin form**:
  - The car form's schema, initial values and submitted data (`CarForm`).
  - The edit page that feeds a stored row into that form and saves it back (`EditCarPage`).
- **Components**:
  - The filter sidebar's single-field updates, option lists and price slider (`FilterSidebar`).
  - The services carousel's index and direction (`ServicesCarousel`).
  - The admin layout's header title and sidebar (`AdminLayout`).

Some JavaScript semantics are modelled explicitly in `JsValues`:
- truthiness of strings and numbers, including `0` and `NaN`;
- `Number()` on decimal digit strings;
- `String()` on integers.

`String.prototype.trim` is modelled in `ContactPage`, with the ECMAScript whitespace set.

Inputs from outside the program are parameters of the operations that read them:
- the current year;
- `Date.now()`;
- the current pathname;
- whether a remote call succeeds;
- the storage service's URL prefix.

## Model

| member | source | states |
|---|---|---|
| UseCars.RunQuery | src/hooks/useCars.ts:36-64 | the rows returned are exactly the table rows that satisfy every constraint, newest `created_at` first, and each matching row as many times as the table holds it |
| UseCars.SortNewestFirst | src/hooks/useCars.ts:43 | `order('created_at', { ascending: false })` yields a permutation of its input that is ordered newest first |
| UseCars.PublicCars | src/hooks/useCars.ts:36-62 | the public listing holds exactly the available cars meeting every active filter, newest first, each as many times as the table holds it, and nothing else |
| UseCars.BuildPublicQuery | src/hooks/useCars.ts:38-62 | the query starts with `status = 'available'` and has at most one more constraint per filter; a car satisfies it iff it is available and meets every truthy filter |
| UseCars.UsePublicCars | src/hooks/useCars.ts:25-69 | running the query the hook builds against the table yields exactly the public listing |
| UseCars.AdminCars | src/hooks/useCars.ts:6-22 | the admin listing is every row whatever its status (the same multiset as the table), newest first |
| UseCars.NoFiltersListsAllAvailable | src/hooks/useCars.ts:38-43 | without filters the public listing is every available car, newest first |
| UseCars.FiltersOnlyNarrow | src/hooks/useCars.ts:45-62 | adding filters never adds a car to the listing: the filtered listing is a sub-multiset of the unfiltered one |
| UseCars.ApplyPatch | src/hooks/useCars.ts:132-136 | an update never changes a row's id, and a patch that supplies no field leaves the row as it was |
| UseCars.PatchWritesOnlySuppliedFields | src/hooks/useCars.ts:130-136 | an update keeps the id, writes every supplied field's value and leaves every other field unchanged |
| UseCars.UpdateRows | src/hooks/useCars.ts:134-136 | the table keeps its length and ids; rows with the given id get the patch, every other row is unchanged |
| UseCars.UpdateCar | src/hooks/useCars.ts:130-141 | the new table is the patched table; `.single()` returns nothing iff no row has the id, otherwise an updated row with that id |
| UseCars.DeleteCarRows | src/hooks/useCars.ts:166-169 | after the delete a row remains iff it was in the table and has another id, and no row is added |
| UseCars.FileExtension | src/hooks/useCars.ts:194 | the extension is the dot-free text after the last dot, or the whole name when there is no dot |
| UseCars.StorageKey | src/hooks/useCars.ts:234-236 | no key iff the URL holds no `/car-images/` marker; otherwise the key is the text from the end of the first marker to the next marker or the end of the URL (the second part of the split), and it never holds the marker |
| UseCars.SplitPartUnique | src/hooks/useCars.ts:234-236 | the first marker and the end of the second split part are determined by the URL, so the key is the only one |
| UseCars.StorageKeyOfPublicUrl | src/hooks/useCars.ts:203-205 | splitting a public URL on the marker recovers the object path it was made from, when neither prefix nor path contains the marker |
| UseCars.UploadPath | src/hooks/useCars.ts:194-195 | the upload key lies in the car's folder (`carId/`) and is a dot-free stamp that reads back as the upload time, a dot, and the file's extension |
| UseCars.UploadPathHasNoMarker | src/hooks/useCars.ts:194-195 | an upload path `carId/timestamp.ext` contains no marker when the car id and the file name contain no slash |
| UseCars.DeleteFindsUploadedObject | src/hooks/useCars.ts:189-241 | the key the image deletion recovers from an uploaded image's public URL is the key the image was uploaded under |
| UseCars.DeleteCarImage | src/hooks/useCars.ts:232-241 | the storage removal targets exactly the recovered key (nothing without a marker); a removal that succeeds takes exactly that object out of the bucket, one that fails leaves the bucket as it was; the `car_images` row goes iff the row delete succeeds, which alone decides failure |
| Dashboard.NewStatus | src/pages/admin/DashboardPage.tsx:43 | the toggle sets `sold` iff the current status is `available` |
| Dashboard.ToggleRequest | src/pages/admin/DashboardPage.tsx:42-45 | the toggle's update targets the given id and supplies the status field and no other |
| Dashboard.ToggleFlips | src/pages/admin/DashboardPage.tsx:43 | toggling a car's status gives the other status |
| Dashboard.ToggleTwiceRestores | src/pages/admin/DashboardPage.tsx:43 | toggling twice restores the original status |
| Dashboard.ToggleWritesOnlyStatus | src/pages/admin/DashboardPage.tsx:42-45 | applied to a row, the toggle flips its status and leaves every other field as it was |
| Dashboard.FoldPrices | src/pages/admin/DashboardPage.tsx:51 | the `reduce` over prices from an accumulator is that accumulator plus the sum of the prices |
| Dashboard.InventoryStats | src/pages/admin/DashboardPage.tsx:47-52 | with no data all four figures are 0; otherwise total is the number of cars, available and sold are the counts of each status and add up to the total, and the value is the sum of prices |
| Dashboard.StatusesPartition | src/pages/admin/DashboardPage.tsx:48-50 | every car is counted as exactly one of available and sold |
| Dashboard.PriceTotalAppend | src/pages/admin/DashboardPage.tsx:51 | the total value of two lists together is the sum of their totals |
| Dashboard.PriceTotalNonNegative | src/pages/admin/DashboardPage.tsx:51 | the total value of cars with non-negative prices is non-negative |
| Dashboard.DeleteDialog.constructor | src/pages/admin/DashboardPage.tsx:33 | the dialog starts closed |
| Dashboard.DeleteDialog.IsOpen | src/pages/admin/DashboardPage.tsx:303 | the dialog is open iff `deleteId` holds a non-empty id |
| Dashboard.DeleteDialog.RequestDelete | src/pages/admin/DashboardPage.tsx:269 | the delete button records the car's id |
| Dashboard.DeleteDialog.Dismiss | src/pages/admin/DashboardPage.tsx:303 | closing the dialog forgets the id |
| Dashboard.DeleteDialog.HandleDelete | src/pages/admin/DashboardPage.tsx:35-40 | with no id nothing happens; a failed delete leaves table and dialog unchanged; a successful one removes every row with the id and closes the dialog |
| CarDetail.FindById | src/pages/CarDetailPage.tsx:16 | no car iff no car has the route's id; otherwise the first car with it |
| CarDetail.CandidatesPartition | src/pages/CarDetailPage.tsx:35-37 | every candidate has the viewed car's brand or another, never both |
| CarDetail.SimilarCars | src/pages/CarDetailPage.tsx:35-39 | at most three available cars other than the viewed one: the first same-brand candidates (as many as exist, up to three), then the first other-brand candidates to fill up, each group in catalogue order, as many as there are candidates up to three, and no car twice when the catalogue has none twice |
| CarDetail.SelectionLaws | src/pages/CarDetailPage.tsx:35-39 | the same-brand slice and the extras are the first candidates of their groups, in catalogue order, and together as many as the candidates up to three |
| CarDetail.PrevImage | src/pages/CarDetailPage.tsx:80 | the left arrow lands on an image iff the index was on an image or just past the last one; from further out it only steps back by one |
| CarDetail.NextImage | src/pages/CarDetailPage.tsx:86 | the right arrow lands on an image iff the index was on one; from outside it steps one further out |
| CarDetail.StaleIndexStaysOff | src/pages/CarDetailPage.tsx:86 | from an index past the images, no number of right-arrow clicks reaches an image |
| CarDetail.ImageStepsAreModular | src/pages/CarDetailPage.tsx:80-86 | on an image, the arrows step by plus and minus one modulo the number of images |
| CarDetail.PrevNextInverse | src/pages/CarDetailPage.tsx:80-86 | on an image, each arrow undoes the other |
| CarDetail.Gallery.constructor | src/pages/CarDetailPage.tsx:17 | the gallery starts on the first image when the page is mounted |
| CarDetail.Gallery.Prev | src/pages/CarDetailPage.tsx:77-80 | the left arrow, shown with more than one image, gives the index `PrevImage` gives and keeps an index that was on an image on one |
| CarDetail.Gallery.Next | src/pages/CarDetailPage.tsx:77-86 | the right arrow, shown with more than one image, gives the index `NextImage` gives; the index is on an image afterwards iff it was before |
| CarDetail.Gallery.Thumbnail | src/pages/CarDetailPage.tsx:100 | a thumbnail selects its own image |
| CarDetail.Gallery.RouteChange | src/pages/CarDetailPage.tsx:17 | following a link to another car on the `/cars/:id` route shows that car's images and keeps the index |
| CarDetail.Gallery.RouteChangeResetting | src/pages/CarDetailPage.tsx:17 | the intended route change: the new car's images, starting again on its first |
| CarDetail.StaleIndexScenario | src/pages/CarDetailPage.tsx:17-86 | three clicks on a four-image car, then a two-image car: index 3 is shown, and the arrows give 4 and 2, none of them an image |
| CarDetail.ResetScenario | src/pages/CarDetailPage.tsx:17-86 | with the resetting route change the same clicks show image 0 of the new car, and the arrows stay on its images |
| IndexPage.FeaturedCars | src/pages/Index.tsx:12 | the featured cars are the first six available cars of the catalogue, or all of them when fewer |
| IndexPage.FeaturedIsSubseq | src/pages/Index.tsx:12 | the featured cars appear in catalogue order |
| IndexPage.FeaturedNeverDuplicates | src/pages/Index.tsx:12 | no car is featured more often than the catalogue holds it, and none twice when the catalogue has no repeats |
| CarsPage.GetParam | src/pages/CarsPage.tsx:16-21 | `searchParams.get` is null iff no pair has the name, otherwise the value of the first pair with it |
| CarsPage.TextParam | src/pages/CarsPage.tsx:16-17 | a text filter is present iff its parameter is a non-empty string, and then it is that string |
| CarsPage.NumberParam | src/pages/CarsPage.tsx:18-21 | a numeric filter is present iff its parameter is a non-empty string, and then it is `Number()` of it |
| CarsPage.ParseFilters | src/pages/CarsPage.tsx:15-22 | the brand and transmission filters are active iff their parameters are non-empty; each numeric filter is active iff its parameter is non-empty and gives a number other than 0 |
| CarsPage.ParsedFilters | src/pages/CarsPage.tsx:15-22 | a present text filter is never empty and is the first parameter of its name; each numeric filter is present iff its parameter is non-empty, and is then `Number()` of it |
| CarsPage.NumericParamRoundTrip | src/pages/CarsPage.tsx:18-21 | the decimal text of a non-negative bound reads back as that number |
| CarsPage.EmptyQueryNoFilters | src/pages/CarsPage.tsx:15-22 | a query string without filter parameters gives the empty filters |
| CarsPage.ActiveFilterCount | src/pages/CarsPage.tsx:34 | the count is the number of the six filters holding a truthy value, which is the number of constraints the listing's query adds to its status constraint |
| CarsPage.CountActiveUpTo | src/pages/CarsPage.tsx:34 | among the first k filters, the truthy ones are as many as the constraints the listing adds for them |
| CarsPage.NoActiveFilters | src/pages/CarsPage.tsx:34 | the count is zero iff the filters reject no car: every skipped value is one the listing ignores and every counted one excludes some car |
| CarsPage.NoActiveFiltersListsAllAvailable | src/pages/CarsPage.tsx:15-34 | when no filter is counted the page lists every available car |
| CarsPage.FilterBadge | src/pages/CarsPage.tsx:48-49 | the badge is shown iff some filter is active; it is the count's decimal text without leading zeros, with "filters" iff the count exceeds one |
| CarsPage.ShowingText | src/pages/CarsPage.tsx:62-66 | the count line is shown iff the listing is non-empty; it is the count's decimal text without leading zeros, with "car" iff exactly one |
| CarForm.ValidCarForm | src/components/admin/CarForm.tsx:13-31 | the schema: five non-empty texts, a year from 1900 to next year, non-negative mileage and price, a condition of New or Used, a status of available or sold, and a seating capacity that is a number if given |
| CarForm.InitialValues | src/components/admin/CarForm.tsx:59-68 | supplied defaults are used as they are, without merging; otherwise the form starts used, available, this year, zero mileage and price, and empty brand, fuel type and transmission |
| CarForm.Mounted | src/components/admin/CarForm.tsx:99-407 | once mounted, a registered text input without a value holds '', a registered number input without one holds NaN, and the selects keep what they were given |
| CarForm.MountedSeatingOptional | src/components/admin/CarForm.tsx:384-385 | the intended reading: as `Mounted`, except that an empty seating input leaves the field unset |
| CarForm.FreshFormInvalid | src/components/admin/CarForm.tsx:13-31 | a fresh form fails the schema |
| CarForm.FreshFormNeedsTextAndSeating | src/components/admin/CarForm.tsx:13-31 | as written, a fresh form passes the schema iff title, brand, model, fuel type and transmission are non-empty and a seating capacity is entered |
| CarForm.EmptySeatingBlocksSubmit | src/components/admin/CarForm.tsx:384-385 | as written, with the seating input left empty no fresh form passes the schema |
| CarForm.FreshFormNeedsOnlyText | src/components/admin/CarForm.tsx:13-31 | with seating truly optional, a fresh form passes the schema iff the five required texts are non-empty |
| CarForm.SuppliedDefaultsNotMerged | src/components/admin/CarForm.tsx:59 | supplied defaults without a condition or a status keep the form invalid |
| CarForm.SubmittedData | src/components/admin/CarForm.tsx:13-31 | a valid form submits the form's own values: every required field as entered, numbers within the schema's bounds, the chosen condition and status, each optional field iff the form holds it, and no bookkeeping column |
| EditCarPage.TextOrEmpty | src/pages/admin/EditCarPage.tsx:64-71 | `x \|\| ''` is empty iff the column is null or empty, otherwise the stored text |
| EditCarPage.SeatingOrUnset | src/pages/admin/EditCarPage.tsx:69 | seating capacity is unset iff it is null or 0, otherwise the stored number |
| EditCarPage.EditDefaults | src/pages/admin/EditCarPage.tsx:53-72 | the form opens on the row's own values, with its condition and status as texts and a value for every optional text field |
| EditCarPage.EditDefaultsValid | src/pages/admin/EditCarPage.tsx:53-72 | as written, the mounted edit form passes the schema iff the row meets it and its seating capacity is neither null nor 0 |
| EditCarPage.EditDefaultsValidSeatingOptional | src/pages/admin/EditCarPage.tsx:53-72 | with seating truly optional, the edit form passes the schema iff the row meets it |
| EditCarPage.UpdatePayload | src/pages/admin/EditCarPage.tsx:15-19 | the update targets the route's id with the submitted data |
| EditCarPage.UnchangedSaveRoundTrip | src/pages/admin/EditCarPage.tsx:53-72 | as written, a valid row with a seating capacity other than null or 0 can be saved unedited, and the save writes every column back as it was, except that null optional text columns become '' |
| EditCarPage.UnchangedSaveRoundTripSeatingOptional | src/pages/admin/EditCarPage.tsx:53-72 | with seating truly optional, every valid row can be saved unedited with that result, and a null or 0 seating capacity stays as stored |
| EditCarPage.UnchangedSaveOnTable | src/pages/admin/EditCarPage.tsx:15-19 | on the table, an unedited save of a row the form accepts changes only the route's row, and only that way |
| ContactPage.Trim | src/pages/ContactPage.tsx:15 | `trim()` leaves no whitespace at either end |
| ContactPage.TrimCutsOnlyBlanks | src/pages/ContactPage.tsx:15 | `trim()` returns a slice of the text with nothing but whitespace before and after it |
| ContactPage.Missing | src/pages/ContactPage.tsx:15 | a field counts as not filled in iff it is all whitespace |
| ContactPage.TrimEmptyIffBlank | src/pages/ContactPage.tsx:15 | a field trims to empty iff it is all whitespace |
| ContactPage.TrimIdempotent | src/pages/ContactPage.tsx:15 | trimming twice is trimming once |
| ContactPage.ContactForm.constructor | src/pages/ContactPage.tsx:11 | the form starts with three empty fields |
| ContactPage.ContactForm.SetName | src/pages/ContactPage.tsx:44 | typing in the name replaces it and leaves the other fields |
| ContactPage.ContactForm.SetPhone | src/pages/ContactPage.tsx:54 | typing in the phone replaces it and leaves the other fields |
| ContactPage.ContactForm.SetMessage | src/pages/ContactPage.tsx:64 | typing in the message replaces it and leaves the other fields |
| ContactPage.ContactForm.Submit | src/pages/ContactPage.tsx:13-21 | the message is sent iff no field is blank; sending clears all three fields, a rejection leaves them as they were |
| FilterSidebar.Update | src/components/FilterSidebar.tsx:22-24 | the updated field takes the new value and every other field keeps its value |
| FilterSidebar.UpdateLaws | src/components/FilterSidebar.tsx:22-24 | writing a field's own value changes nothing, and a second write to a field overrides the first |
| FilterSidebar.Years | src/components/FilterSidebar.tsx:16 | the year select offers fifteen years |
| FilterSidebar.YearsDescend | src/components/FilterSidebar.tsx:15-16 | the years run from the current year down, one year per entry, each reading back as its number |
| FilterSidebar.YearsDistinct | src/components/FilterSidebar.tsx:16 | no year is offered twice |
| FilterSidebar.SelectOptions | src/components/FilterSidebar.tsx:84-92 | a select offers the "all" sentinel first and then its choices |
| FilterSidebar.SentinelIsNoChoice | src/components/FilterSidebar.tsx:15-19 | "all" is none of the years, fuel types, transmissions or conditions |
| FilterSidebar.SliderValue | src/components/FilterSidebar.tsx:67-73 | every position of the slider gives a value between its bounds and on a step |
| FilterSidebar.SliderStopsAreOnSlider | src/components/FilterSidebar.tsx:67-73 | a value is one the slider can take iff it is one of its 49 positions |
| FilterSidebar.SlideMaxPrice | src/components/FilterSidebar.tsx:69 | moving the slider sets the value at the chosen position as the maximum price and keeps every other field |
| ServicesCarousel.NextService | src/components/ServicesCarousel.tsx:62 | the next slide is always one of the four services |
| ServicesCarousel.PrevService | src/components/ServicesCarousel.tsx:67 | the previous slide is always one of the four services |
| ServicesCarousel.StepsWrap | src/components/ServicesCarousel.tsx:60-68 | next steps forward and wraps from the last to the first, previous steps back and wraps from the first to the last |
| ServicesCarousel.StepsInverse | src/components/ServicesCarousel.tsx:60-68 | each step undoes the other |
| ServicesCarousel.Advance | src/components/ServicesCarousel.tsx:52-58 | any number of automatic advances stays on a service |
| ServicesCarousel.AdvanceIsModular | src/components/ServicesCarousel.tsx:52-62 | k advances move k places around the ring of services |
| ServicesCarousel.FullCycle | src/components/ServicesCarousel.tsx:52-62 | four advances come back to the same service |
| ServicesCarousel.Carousel.constructor | src/components/ServicesCarousel.tsx:49-50 | the carousel starts on the first service with no direction |
| ServicesCarousel.Carousel.Next | src/components/ServicesCarousel.tsx:60-63 | the next button moves to the next service with direction 1 |
| ServicesCarousel.Carousel.Prev | src/components/ServicesCarousel.tsx:65-68 | the previous button moves to the previous service with direction -1 |
| ServicesCarousel.Carousel.GoTo | src/components/ServicesCarousel.tsx:70-73 | a dot selects its service; the direction is 1 iff it lies after the current one, -1 otherwise |
| AdminLayout.HeaderTitle | src/components/admin/AdminLayout.tsx:160 | the title is the first navigation entry whose href is the pathname, or "Dashboard" when there is none |
| AdminLayout.HeaderTitleCases | src/components/admin/AdminLayout.tsx:45-63 | the title is "Add New Car" iff the pathname is `/admin/cars/new`, and "Dashboard" otherwise |
| AdminLayout.AllCarsNeverTitle | src/components/admin/AdminLayout.tsx:45-63 | "All Cars" is never the title, because its entry's href is the dashboard's |
| AdminLayout.Sidebar.constructor | src/components/admin/AdminLayout.tsx:26 | the mobile sidebar starts closed |
| AdminLayout.Sidebar.Open | src/components/admin/AdminLayout.tsx:154 | the menu button opens the sidebar |
| AdminLayout.Sidebar.Close | src/components/admin/AdminLayout.tsx:95 | the close buttons close the sidebar |

## Left out

- Remote calls are not modelled as I/O. This covers the hosted database client, its construction from environment variables, authentication and sign-out. Whether a remote call succeeds is a parameter (`deleteSucceeds`, `storageRemoves`, `rowDeleteSucceeds`).
- `useCar` and `useCreateCar` (`src/hooks/useCars.ts:73-125`) are not part of this model. `useCreateCar` is an insert used only by the add page.
- EditCarPage: the row being edited is a parameter. The single-row read by `useCar` and its loading and "Car not found" views (`src/pages/admin/EditCarPage.tsx:11`, `23-41`) are not modelled.
- The `car_images(*)` join embedded in the listing queries is not modelled. Rows are modelled without their images.
- The upload itself, its `car_images` insert and the image-upload component's sequential loop are not modelled. Only the path they use and the key a deletion recovers are modelled.
- UseCars.PublicUrl assumes the storage service's public URL is a prefix followed by `/car-images/` and the object path. That format belongs to the storage library, which is not part of this model.
- UseCars.DeleteCarImage models a storage removal that fails as leaving the object in place. A removal that rejects its promise is not modelled.
- Cache invalidation, toasts and navigation after mutations are not modelled, because they change no data.
- UseCars.UpdateCar returns the first row with the id. Ids are the table's primary key, so at most one row matches; the `.single()` error for several matching rows is not modelled.
- UseCars.SortNewestFirst breaks ties between equal `created_at` values by table order. The backend leaves that order unspecified.
- Timestamps are natural-number instants rather than ISO strings, since only their order matters.
- Prices, years and mileages are integers, and `Number(c.price)` is the identity. Floating-point rounding of sums is not modelled.
- JsValues.ParseNumber reads only strings of decimal digits, with "" as 0. Any other text is NaN in the model, although `Number()` also accepts signs, whitespace, fractions, exponents and hexadecimal.
- The form library and the schema library are not modelled, beyond `CarForm.Mounted`: a registered text input without a value holds '', and a registered number input (year, mileage, price, seating capacity) without one holds NaN, as `valueAsNumber` gives it. The form's values are otherwise given as submitted.
- FilterSidebar.Update requires a value of the field's own kind (number for the price bounds, text otherwise). The source's signature admits either kind for any field.
- The local filtering that `FilterSidebar`'s `FilterState` drives on the mock catalogue is not modelled. This includes the region and brand option lists from the catalogue and the filter reset. Only the state updates and the fixed option lists are modelled.
- CarDetail.Gallery.Prev and CarDetail.Gallery.Next require more than one image, because the arrows are rendered only then.
- Dashboard.DeleteDialog.HandleDelete keeps the dialog open after a failed delete, as the handler's code does. The dialog component may also close itself when its action button is clicked; that behaviour belongs to the UI library, which is not part of this model.
- ContactPage.ContactForm.SetName, SetPhone and SetMessage accept text of any length. The inputs' `maxLength` limits of 100, 20 and 1000 characters are enforced by the browser and are not modelled.
- Timers, animation and auto-advance intervals of the carousel are not modelled. `Advance` models repeated automatic steps without time.
- Locale formatting of prices, dates and numbers is not modelled.
- Presentational components, styling and layout are not modelled.

## Findings

| source | as written | input that shows it | evidently intended | confidence | as-written member | corrected member |
|---|---|---|---|---|---|---|
| src/pages/CarDetailPage.tsx:17 | `activeImage` is set to 0 only when the page is mounted. Every car shares the `/cars/:id` route (src/App.tsx:36), and the "Similar Cars" cards link to it, so the index carries over to the next car (`Gallery.RouteChange`); from past the images the right arrow never comes back (`StaleIndexStaysOff`) | on a car with four images, click the right arrow three times, then a similar car with two images: `car.images[3]` is shown, and the arrows give 4 and 2, neither an image | the gallery starts on the new car's first image (`Gallery.RouteChangeResetting`) | medium, not executed | CarDetail.StaleIndexScenario | CarDetail.ResetScenario |
| src/components/admin/CarForm.tsx:28 | `seating_capacity` is `z.number().optional()`, but its input is a number input registered with `valueAsNumber` (line 385), which holds NaN when left empty, and NaN is not a number to the schema | a fresh form with title, brand, model, fuel type and transmission filled in and the seating capacity left empty; or editing a row whose `seating_capacity` is null or 0 (`\|\| undefined`, src/pages/admin/EditCarPage.tsx:69) and saving it unedited: neither passes the schema | an empty seating input leaves the optional field unset | medium, not executed | CarForm.EmptySeatingBlocksSubmit | EditCarPage.UnchangedSaveRoundTripSeatingOptional |
