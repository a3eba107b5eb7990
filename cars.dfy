/**
 The vehicle resource (`api/cars`): a process-wide list of cars and a VIN
 counter, behind list, get, create, full update, partial update and delete.
 One `CarsController` object stands for the controller's static state; cars
 are values, and a car changed through its setters is replaced in the list by
 its new value.
 */
module Cars {
  import opened Common
  import opened Codes
  import Store

  /** A car; `id` and `addedDate` are get-only, the rest have setters. */
  datatype Car = Car(
    id: Guid,
    make: string,
    model: string,
    year: int,
    vin: string,
    addedDate: Timestamp)
  {
    /**
     `Car.Update`: make, model and year are overwritten, the VIN only by a
     non-empty one; the id and the date added stay.
     */
    function Update(make: string, model: string, year: int, vin: Option<string>): (r: Car)
      ensures r.id == id && r.addedDate == addedDate
      ensures r.make == make && r.model == model && r.year == year
      ensures IsNullOrEmpty(vin) ==> r.vin == this.vin
      ensures !IsNullOrEmpty(vin) ==> r.vin == vin.value
    {
      var newVin := if IsNullOrEmpty(vin) then this.vin else vin.value;
      this.(make := make, model := model, year := year, vin := newVin)
    }
  }

  /** The body of POST and PUT. */
  datatype CarRequest = CarRequest(make: string, model: string, year: int, vin: Option<string>)

  /** The body of PATCH: every field may be absent. */
  datatype CarPartialUpdate = CarPartialUpdate(
    make: Option<string>,
    model: Option<string>,
    year: Option<int>,
    vin: Option<string>)

  function IdOf(c: Car): Guid {
    c.id
  }

  /** The initial value of `_vinCounter`. */
  const VinSeed: nat := 1000

  /** The first model year a car may have: 1886, the year of the first automobile. */
  const FirstYear: int := 1886

  /** The guard of `AddCar`: from 1886 up to next year, both ends included. */
  predicate PlausibleYear(year: int, currentYear: Year) {
    !(year < FirstYear || year > currentYear + 1)
  }

  /**
   The range is closed at both ends: 1886 and next year pass (whenever next
   year is not before 1886), their neighbours outside do not.
   */
  lemma PlausibleYearBounds(year: int, currentYear: Year)
    ensures PlausibleYear(year, currentYear) <==> FirstYear <= year <= currentYear + 1
    ensures FirstYear <= currentYear + 1 ==>
      PlausibleYear(FirstYear, currentYear) && PlausibleYear(currentYear + 1, currentYear)
    ensures !PlausibleYear(FirstYear - 1, currentYear) && !PlausibleYear(currentYear + 2, currentYear)
  {
  }

  /** The VINs generated while the counter went from its seed up to `counter`. */
  function IssuedVins(counter: nat): seq<string>
    requires VinSeed <= counter
  {
    seq(counter - VinSeed, k requires 0 <= k < counter - VinSeed => Vin(VinSeed + k))
  }

  /** No two VINs the counter has produced are equal. */
  lemma IssuedVinsDistinct(counter: nat)
    requires VinSeed <= counter
    ensures forall i, j :: 0 <= i < j < counter - VinSeed ==> IssuedVins(counter)[i] != IssuedVins(counter)[j]
  {
    var issued := IssuedVins(counter);
    forall i, j | 0 <= i < j < |issued|
      ensures issued[i] != issued[j]
    {
      if issued[i] == issued[j] {
        VinInjective(VinSeed + i, VinSeed + j);
      }
    }
  }

  class CarsController {
    /** `Cars`, in insertion order. */
    var cars: seq<Car>
    /** `_vinCounter`: the number the next generated VIN carries. */
    var vinCounter: nat

    /** Ids are unique, and the counter has never gone below its seed. */
    ghost predicate Valid()
      reads this
    {
      Store.UniqueKeys(cars, IdOf) && VinSeed <= vinCounter
    }

    /** The static initial state: no cars and the counter at its seed. */
    constructor ()
      ensures Valid()
      ensures cars == [] && vinCounter == VinSeed
    {
      cars := [];
      vinCounter := VinSeed;
    }

    /** GET api/cars: every car, in insertion order. */
    function GetAllCars(): (r: Response<seq<Car>>)
      reads this
      ensures r.Ok? && r.body == cars
    {
      Ok(cars)
    }

    /** GET api/cars/{id}: the car with that id, or NotFound when there is none. */
    function GetCar(id: Guid): (r: Response<Car>)
      reads this
      ensures r.Ok? || r.NotFound?
      ensures r.NotFound? <==> forall c :: c in cars ==> c.id != id
      ensures r.Ok? ==> r.body in cars && r.body.id == id
    {
      match Store.Find(cars, IdOf, id)
      case None => NotFound
      case Some(i) => Ok(cars[i])
    }

    /**
     `GenerateVin`: a VIN from the current counter, which is then incremented
     (post-increment). The VIN differs from every VIN generated before.
     */
    method GenerateVin() returns (vin: string)
      requires Valid()
      modifies this
      ensures Valid()
      ensures vin == Vin(old(vinCounter)) && vinCounter == old(vinCounter) + 1 && cars == old(cars)
      ensures IssuedVins(vinCounter) == IssuedVins(old(vinCounter)) + [vin]
      ensures vin !in IssuedVins(old(vinCounter))
    {
      vin := Vin(vinCounter);
      forall k | 0 <= k < vinCounter - VinSeed
        ensures IssuedVins(vinCounter)[k] != vin
      {
        if IssuedVins(vinCounter)[k] == vin {
          VinInjective(VinSeed + k, vinCounter);
        }
      }
      vinCounter := vinCounter + 1;
    }

    /**
     POST api/cars: a year outside 1886 to next year is refused before
     anything changes; otherwise a new car with the fresh id is appended,
     carrying the request's VIN or, when that is null or empty, a generated one.
     */
    method AddCar(request: CarRequest, freshId: Guid, currentYear: Year, utcNow: Timestamp) returns (r: Response<Car>)
      requires Valid()
      requires forall c :: c in cars ==> c.id != freshId
      modifies this
      ensures Valid()
      ensures !PlausibleYear(request.year, currentYear) ==>
        r == BadRequest("Invalid year") && cars == old(cars) && vinCounter == old(vinCounter)
      ensures PlausibleYear(request.year, currentYear) ==>
        && r.Created? && r.location == freshId
        && cars == old(cars) + [r.body]
        && r.body.id == freshId && r.body.addedDate == utcNow
        && r.body.make == request.make && r.body.model == request.model && r.body.year == request.year
        && GetCar(freshId) == Ok(r.body)
      ensures PlausibleYear(request.year, currentYear) && IsNullOrEmpty(request.vin) ==>
        r.body.vin == Vin(old(vinCounter)) && vinCounter == old(vinCounter) + 1
      ensures PlausibleYear(request.year, currentYear) && !IsNullOrEmpty(request.vin) ==>
        r.body.vin == request.vin.value && vinCounter == old(vinCounter)
    {
      if request.year < FirstYear || request.year > currentYear + 1 {
        return BadRequest("Invalid year");
      }
      var vin: string;
      if IsNullOrEmpty(request.vin) {
        vin := GenerateVin();
      } else {
        vin := request.vin.value;
      }
      var newCar := Car(freshId, request.make, request.model, request.year, vin, utcNow);
      Store.AppendFresh(cars, IdOf, newCar);
      cars := cars + [newCar];
      r := Created(newCar.id, newCar);
    }

    /**
     PUT api/cars/{id}: NotFound when no car has the id; otherwise that car is
     updated in place, with no check of the year, and every other car is left
     as it was.
     */
    method UpdateCar(id: Guid, request: CarRequest) returns (r: Response<Car>)
      requires Valid()
      modifies this
      ensures Valid() && vinCounter == old(vinCounter)
      ensures match Store.Find(old(cars), IdOf, id)
        case None => r == NotFound && cars == old(cars)
        case Some(i) =>
          && r == NoContent
          && cars == old(cars)[i := old(cars)[i].Update(request.make, request.model, request.year, request.vin)]
      ensures old(GetCar(id)).Ok? ==>
        GetCar(id) == Ok(old(GetCar(id)).body.Update(request.make, request.model, request.year, request.vin))
    {
      var found := Store.Find(cars, IdOf, id);
      if found.None? {
        return NotFound;
      }
      var i := found.value;
      var car := cars[i].Update(request.make, request.model, request.year, request.vin);
      Store.ReplaceSameKey(cars, IdOf, i, car);
      cars := cars[i := car];
      Store.FindUnique(cars, IdOf, i);
      r := NoContent;
    }

    /**
     PATCH api/cars/{id}: NotFound when no car has the id; otherwise only a
     non-empty make, model or VIN and a present year are written, and nothing
     else changes.
     */
    method PartialUpdate(id: Guid, request: CarPartialUpdate) returns (r: Response<Car>)
      requires Valid()
      modifies this
      ensures Valid() && vinCounter == old(vinCounter)
      ensures match Store.Find(old(cars), IdOf, id)
        case None => r == NotFound && cars == old(cars)
        case Some(i) =>
          && r == NoContent
          && |cars| == |old(cars)|
          && (forall j :: 0 <= j < |cars| && j != i ==> cars[j] == old(cars)[j])
          && var before, after := old(cars)[i], cars[i];
          && after.id == before.id && after.addedDate == before.addedDate
          && after.make == (if IsNullOrEmpty(request.make) then before.make else request.make.value)
          && after.model == (if IsNullOrEmpty(request.model) then before.model else request.model.value)
          && after.year == (if request.year.Some? then request.year.value else before.year)
          && after.vin == (if IsNullOrEmpty(request.vin) then before.vin else request.vin.value)
    {
      var found := Store.Find(cars, IdOf, id);
      if found.None? {
        return NotFound;
      }
      var i := found.value;
      var car := cars[i];
      if !IsNullOrEmpty(request.make) {
        car := car.(make := request.make.value);
      }
      if !IsNullOrEmpty(request.model) {
        car := car.(model := request.model.value);
      }
      if request.year.Some? {
        car := car.(year := request.year.value);
      }
      if !IsNullOrEmpty(request.vin) {
        car := car.(vin := request.vin.value);
      }
      Store.ReplaceSameKey(cars, IdOf, i, car);
      cars := cars[i := car];
      r := NoContent;
    }

    /**
     DELETE api/cars/{id}: NotFound when no car has the id; otherwise exactly
     that car is removed, the rest keeping their order. Afterwards no car has
     the id, so a repeated delete is NotFound.
     */
    method DeleteCar(id: Guid) returns (r: Response<Car>)
      requires Valid()
      modifies this
      ensures Valid() && vinCounter == old(vinCounter)
      ensures match Store.Find(old(cars), IdOf, id)
        case None => r == NotFound && cars == old(cars)
        case Some(i) => r == NoContent && cars == Store.RemoveAt(old(cars), i)
      ensures GetCar(id) == NotFound
    {
      var found := Store.Find(cars, IdOf, id);
      if found.None? {
        return NotFound;
      }
      var i := found.value;
      Store.RemoveUnique(cars, IdOf, i);
      cars := Store.RemoveAt(cars, i);
      r := NoContent;
    }
  }
}
