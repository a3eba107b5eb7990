# In-memory CRUD resources of DotNet8.WebApiPlaceholder, in Dafny

The web API has two controllers with the same design: `api/dango`, a menu of
dango items, and `api/cars`, a list of vehicles. Each controller keeps a
process-wide list of entities and a counter for generated secondary codes
(a SKU for dangos, a VIN for cars). Each offers list, get by id, create, full
update (PUT), partial update (PATCH) and delete. The dango controller also has
a hidden action that seeds an empty menu from a default list.

The model keeps that shape:

- `common.dfy` (`Common`): nullable values as `Option`, `string.IsNullOrEmpty`,
  and the HTTP outcomes (`Ok`, `Created`, `NoContent`, `NotFound`,
  `BadRequest`) in place of `IActionResult`.
- `codes.dfy` (`Codes`): decimal printing of the counter, the `yyMM` date
  fragment, the VIN and SKU formats, and proofs that a generated code
  determines the counter it came from.
- `store.dfy` (`Store`): the list operations both controllers use. `Find`
  takes the first entity with the id. `RemoveAt` removes the entity that
  `Find` located. The `UniqueKeys` invariant says every entity has a different
  id; the lemmas show that append, replace and remove preserve it.
- `dangos.dfy` (`Dangos`) and `cars.dfy` (`Cars`): one class per controller.
  Its fields are the static list (`seq`) and the static counter (`nat`). Its
  methods change them in place. `Valid()` states that ids are unique and
  relates the counter to the codes generated so far. Entities are datatypes:
  a setter call becomes a new value at the same index.
- `scenarios.dfy` (`Scenarios`): clients that chain controller calls and get
  their outcomes from the contracts alone. They cover a create followed by a
  replace that leaves the VIN alone, two repeated deletes, refused creates,
  a patch of one field, and two generated codes that differ.

Parameters replace the things the controllers read from the environment:

- the new entity's id, which `Guid.NewGuid` supplies; the caller must provide
  an id that no entity already has;
- the local date (year and month) from `DateTime.Now`, used for the SKU's
  `yyMM` fragment and the car's year limit;
- the `DateTime.UtcNow` timestamp stored as the creation date;
- the default menu that `InitializeMenu` reads from its JSON file. `None`
  stands for a deserialiser result of `null`.

## Model

| member | source | states |
|---|---|---|
| `Codes.Decimal` | Controllers/CarsController.cs:107 | the counter is printed as a non-empty string of decimal digits that ends in the counter's last digit, one character long exactly when the counter is below 10 |
| `Codes.DecimalInjective` | Controllers/CarsController.cs:107 | two counters that print the same are equal |
| `Codes.Pad2` | Controllers/DangosController.cs:123 | a number below 100 prints as two digits that read back as the number |
| `Codes.YearMonth` | Controllers/DangosController.cs:123 | the `yyMM` fragment is always four digits |
| `Codes.Vin` | Controllers/CarsController.cs:107 | a generated VIN is the prefix `1M8GDM9A_` followed by at least one character |
| `Codes.Sku` | Controllers/DangosController.cs:123 | a generated SKU starts with `DNG-`, has the four-character date fragment at positions 4 to 7 and a dash at position 8, and is followed by at least one character |
| `Codes.VinInjective` | Controllers/CarsController.cs:107 | VINs generated from different counter values differ |
| `Codes.SkuInjective` | Controllers/DangosController.cs:123 | SKUs generated from different counter values differ, even in different months |
| `Store.Find` | Controllers/DangosController.cs:24 | `List.Find` on the id: it returns no result exactly when no entity has the id; otherwise it returns the position of an entity with the id, and no earlier entity has it |
| `Store.FindUnique` | Controllers/CarsController.cs:22 | when ids are unique, looking up an entity's id finds that entity |
| `Store.RemoveAt` | Controllers/DangosController.cs:104 | `List.Remove` of the found entity: the list is one shorter, the entities before and after keep their order, and the removed entity is the only one missing |
| `Store.AppendFresh` | Controllers/CarsController.cs:46 | appending an entity whose id is new keeps ids unique, and a lookup of that id then finds the last position |
| `Store.ReplaceSameKey` | Controllers/CarsController.cs:132-137 | replacing an entity with one that has the same id keeps ids unique |
| `Store.RemoveUnique` | Controllers/CarsController.cs:88 | removing an entity keeps ids unique and leaves no entity with its id |
| `Dangos.DangoItem.Update` | Controllers/DangosController.cs:158-164 | flavor, glaze, skewer count and new-arrival flag are overwritten with no validation; the SKU changes only to a non-empty value; id and creation date stay |
| `Dangos.IssuedSkusDistinct` | Controllers/DangosController.cs:123 | in the SKU history (the k-th entry built from counter 1000 + k and the clock reading of that generation), no two entries are equal, whatever the clock readings |
| `Dangos.DangosController.constructor` | Controllers/DangosController.cs:9-10 | at start-up the menu is empty and the SKU counter is 1000 |
| `Dangos.DangosController.GetAllDango` | Controllers/DangosController.cs:13-18 | Ok with the whole menu in insertion order |
| `Dangos.DangosController.GetDango` | Controllers/DangosController.cs:21-27 | NotFound exactly when no item has the id; otherwise Ok with a menu item that has that id |
| `Dangos.DangosController.GenerateSku` | Controllers/DangosController.cs:123 | the SKU carries the counter's old value and the counter then goes up by exactly one. The SKU is appended to the history of generated SKUs, whose k-th entry since start-up carries counter 1000 + k (with the constructor and `Valid()`). It differs from every SKU generated before |
| `Dangos.DangosController.AddDango` | Controllers/DangosController.cs:30-49 | a skewer count of 0 or less gives BadRequest and leaves the menu and the counter unchanged. Otherwise one item is appended. It has the fresh id and the request's flavor, glaze, count and flag, and a get of the id returns it. A null or empty request SKU is replaced by a generated SKU and the counter goes up by one; any other SKU is kept as given and the counter is unchanged |
| `Dangos.DangosController.InitializeMenu` | Controllers/DangosController.cs:53-64 | a non-empty menu is left unchanged with Ok; an unreadable default gives BadRequest with no change; otherwise the empty menu becomes exactly the default list |
| `Dangos.DangosController.UpdateDango` | Controllers/DangosController.cs:68-77 | an unknown id gives NotFound and changes nothing; otherwise NoContent, and only the found item is replaced, by its `Update` with the request fields; a get then returns the updated item; the counter is unchanged |
| `Dangos.DangosController.PartialUpdate` | Controllers/DangosController.cs:81-94 | an unknown id gives NotFound and changes nothing; otherwise each field is overwritten only when the request carries a non-empty string or a present value, id and creation date stay, and every other item is unchanged |
| `Dangos.DangosController.DeleteDango` | Controllers/DangosController.cs:98-107 | an unknown id gives NotFound and changes nothing; otherwise exactly the found item is removed and the rest keep their order; afterwards no item has the id |
| `Cars.Car.Update` | Controllers/CarsController.cs:132-137 | make, model and year are overwritten with no year check; the VIN changes only to a non-empty value; id and date added stay |
| `Cars.PlausibleYearBounds` | Controllers/CarsController.cs:30 | the create guard admits exactly the years from 1886 to next year, both included |
| `Cars.IssuedVinsDistinct` | Controllers/CarsController.cs:107 | in the VIN history up to a counter value (the k-th entry built from counter 1000 + k), no two entries are equal |
| `Cars.CarsController.constructor` | Controllers/CarsController.cs:8-9 | at start-up the list is empty and the VIN counter is 1000 |
| `Cars.CarsController.GetAllCars` | Controllers/CarsController.cs:12-17 | Ok with every car in insertion order |
| `Cars.CarsController.GetCar` | Controllers/CarsController.cs:19-25 | NotFound exactly when no car has the id; otherwise Ok with a car in the list that has that id |
| `Cars.CarsController.GenerateVin` | Controllers/CarsController.cs:107 | the VIN carries the counter's old value and the counter then goes up by exactly one. The VIN is appended to the history of generated VINs, whose k-th entry since start-up carries counter 1000 + k (with the constructor). It differs from every VIN generated before |
| `Cars.CarsController.AddCar` | Controllers/CarsController.cs:28-49 | a year before 1886 or after next year gives BadRequest and leaves the list and the counter unchanged. Otherwise one car is appended. It has the fresh id and the request's make, model and year, and a get of the id returns it. A null or empty request VIN is replaced by a generated VIN and the counter goes up by one; any other VIN is kept as given and the counter is unchanged |
| `Cars.CarsController.UpdateCar` | Controllers/CarsController.cs:53-62 | an unknown id gives NotFound and changes nothing; otherwise NoContent, and only the found car is replaced, by its `Update` with the request fields; a get then returns the updated car; the counter is unchanged |
| `Cars.CarsController.PartialUpdate` | Controllers/CarsController.cs:66-78 | an unknown id gives NotFound and changes nothing; otherwise only a non-empty make, model or VIN and a present year are written, id and date added stay, and every other car is unchanged |
| `Cars.CarsController.DeleteCar` | Controllers/CarsController.cs:82-91 | an unknown id gives NotFound and changes nothing; otherwise exactly the found car is removed and the rest keep their order; afterwards no car has the id |
| `Scenarios.CarCreateThenReplace` | Controllers/CarsController.cs:28-62 | creating a 2020 car without a VIN gives `1M8GDM9A_1000`; replacing it with year 2021 and an empty VIN gives NoContent; a get then shows 2021 and the original VIN |
| `Scenarios.CarInvalidInputs` | Controllers/CarsController.cs:30-31 | years 1700 and 1800 are refused and the list stays empty; a patch of an unknown id is NotFound |
| `Scenarios.CarTwoGeneratedVins` | Controllers/CarsController.cs:33-35 | two creates without a VIN get different VINs (an empty VIN counts as none) |
| `Scenarios.DangoDeleteTwice` | Controllers/DangosController.cs:98-107 | after a create and a delete, a get and a second delete of the same id are NotFound |
| `Scenarios.DangoRejectThenPatch` | Controllers/DangosController.cs:32-33 | a zero skewer count is refused; a caller's SKU is kept verbatim; a patch with only a flavor (and an empty glaze) changes the flavor and nothing else |

## Left out

- The HEAD and OPTIONS actions (Controllers/DangosController.cs:110-121, Controllers/CarsController.cs:94-105) are left out. They return a constant response and write an `Allow` header, without touching the state.
- Routing, model binding and the `{id:guid}` route constraint are left out. For `CreatedAtAction`, only the new id is kept as the location.
- All `logger.LogInformation` calls are left out.
- `InitializeMenu`'s file read and JSON deserialisation are left out. The default menu is a parameter, and an exception from `File.ReadAllText` is not modelled.
- Dangos.DangosController.InitializeMenu: requires the default menu's ids to be distinct when the menu is seeded. The source does not check the file, and the model's invariant that ids are unique depends on this.
- Dangos.DangosController.AddDango: requires the new id to differ from every id in the menu. `Guid.NewGuid` is only probabilistically unique, so this is assumed, not guaranteed.
- Cars.CarsController.AddCar: requires the new id to differ from every id in the list. `Guid.NewGuid` is only probabilistically unique, so this is assumed, not guaranteed.
- `DateTime.Now` and `DateTime.UtcNow` are parameters. Time zones and the time of day are not modelled.
- The counters are unbounded `nat`s, and `SkewerCount` and `Year` are unbounded `int`s. The 32-bit wrap-around of `_skuCounter++` and `_vinCounter++` after 2^31 - 1000 generations is not modelled.
- Concurrent requests are not modelled. The source uses no lock on the static list or counter, and the model assumes one request at a time.
- Entities are values, so aliasing is not captured. In the source, `GetDango` and `GetCar` return the live item, `GetAllDango` and `GetAllCars` return the live static list, and `CreatedAtAction` in `AddDango` and `AddCar` returns the live new item (Controllers/DangosController.cs:17, :26, :48; Controllers/CarsController.cs:15, :24, :48). A caller holding one of these would observe later changes. In the model, each of them returns a copy.
- The dango item's `CreatedDate` is given by a parameter on create. In the source it is a get-only property set to `DateTime.UtcNow` when the object is built (Controllers/DangosController.cs:156), so a seeded item gets the time of deserialisation, not a value from the file. The model accepts any `createdDate` in the default list.
