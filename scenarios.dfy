/**
 Clients of the two controllers: request sequences against a freshly started
 resource whose outcomes follow from the controllers' contracts alone.
 */
module Scenarios {
  import opened Common
  import opened Codes
  import Cars
  import Dangos

  /**
   Create a 2020 Toyota Corolla without a VIN, then replace it with year 2021
   and an empty VIN: the create is Created with a generated VIN, the replace
   is NoContent, and a later get shows year 2021 and the VIN it was created with.
   */
  method CarCreateThenReplace(id: Guid, currentYear: Year, t: Timestamp)
    returns (created: Response<Cars.Car>, replaced: Response<Cars.Car>, fetched: Response<Cars.Car>)
    requires 2019 <= currentYear
    ensures created.Created? && created.body.vin == Vin(Cars.VinSeed)
    ensures created.body.vin[..|VinPrefix|] == VinPrefix
    ensures created.body.vin == "1M8GDM9A_1000"
    ensures replaced == NoContent
    ensures fetched.Ok? && fetched.body.year == 2021 && fetched.body.vin == created.body.vin
    ensures fetched.body.id == id && fetched.body.make == "Toyota" && fetched.body.model == "Corolla"
  {
    var controller := new Cars.CarsController();
    created := controller.AddCar(Cars.CarRequest("Toyota", "Corolla", 2020, None), id, currentYear, t);
    replaced := controller.UpdateCar(id, Cars.CarRequest("Toyota", "Corolla", 2021, Some("")));
    fetched := controller.GetCar(id);
  }

  /** A car from 1700 or 1800 is refused and the list stays empty; a patch of an unknown id is NotFound. */
  method CarInvalidInputs(id: Guid, currentYear: Year, t: Timestamp)
    returns (tooOld: Response<Cars.Car>, older: Response<Cars.Car>, patched: Response<Cars.Car>, all: Response<seq<Cars.Car>>)
    ensures tooOld.BadRequest? && older.BadRequest?
    ensures patched == NotFound
    ensures all == Ok([])
  {
    var controller := new Cars.CarsController();
    tooOld := controller.AddCar(Cars.CarRequest("Benz", "Patent-Motorwagen", 1700, None), id, currentYear, t);
    older := controller.AddCar(Cars.CarRequest("Benz", "Patent-Motorwagen", 1800, None), id, currentYear, t);
    patched := controller.PartialUpdate(id, Cars.CarPartialUpdate(None, None, Some(1999), None));
    all := controller.GetAllCars();
  }

  /** Two creates that leave the VIN to the server get two different VINs. */
  method CarTwoGeneratedVins(id1: Guid, id2: Guid, currentYear: Year, t: Timestamp)
    returns (first: Response<Cars.Car>, second: Response<Cars.Car>)
    requires id1 != id2 && 1926 <= currentYear
    ensures first.Created? && second.Created?
    ensures first.body.vin != second.body.vin
  {
    var controller := new Cars.CarsController();
    first := controller.AddCar(Cars.CarRequest("Ford", "Model T", 1908, None), id1, currentYear, t);
    second := controller.AddCar(Cars.CarRequest("Ford", "Model A", 1927, Some("")), id2, currentYear, t);
  }

  /**
   Create a dango and delete it twice: the create is Created, the first delete
   NoContent, a get after it and the second delete NotFound.
   */
  method DangoDeleteTwice(id: Guid, now: LocalDate, t: Timestamp)
    returns (created: Response<Dangos.DangoItem>, first: Response<Dangos.DangoItem>,
             fetched: Response<Dangos.DangoItem>, second: Response<Dangos.DangoItem>)
    ensures created.Created? && created.body.sku == Sku(now, Dangos.SkuSeed)
    ensures first == NoContent && fetched == NotFound && second == NotFound
  {
    var controller := new Dangos.DangosController();
    created := controller.AddDango(Dangos.DangoRequest("Mitarashi", "Soy", 3, true, None), id, now, t);
    first := controller.DeleteDango(id);
    fetched := controller.GetDango(id);
    second := controller.DeleteDango(id);
  }

  /**
   A zero skewer count is refused and the menu stays empty; a patch that
   carries only a flavor changes the flavor and nothing else.
   */
  method DangoRejectThenPatch(id: Guid, now: LocalDate, t: Timestamp)
    returns (refused: Response<Dangos.DangoItem>, created: Response<Dangos.DangoItem>,
             patched: Response<Dangos.DangoItem>, fetched: Response<Dangos.DangoItem>)
    ensures refused == BadRequest("Invalid skewer count")
    ensures created.Created? && created.body.sku == "DNG-SAKURA"
    ensures patched == NoContent
    ensures fetched.Ok? && fetched.body == created.body.(flavor := "Hanami")
  {
    var controller := new Dangos.DangosController();
    refused := controller.AddDango(Dangos.DangoRequest("Hanami", "None", 0, false, None), id, now, t);
    assert controller.menu == [];
    created := controller.AddDango(Dangos.DangoRequest("Sakura", "None", 3, false, Some("DNG-SAKURA")), id, now, t);
    patched := controller.PartialUpdate(id, Dangos.DangoPartialUpdate(Some("Hanami"), Some(""), None, None, None));
    fetched := controller.GetDango(id);
  }
}
