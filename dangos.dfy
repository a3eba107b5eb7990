/**
 The dango menu resource (`api/dango`): a process-wide list of menu items and a
 SKU counter, behind list, get, create, full update, partial update, delete and
 a one-time seeding action. One `DangosController` object stands for the
 controller's static state; the menu items are values, and an item changed
 through its setters is replaced in the list by its new value.
 */
module Dangos {
  import opened Common
  import opened Codes
  import Store

  /** A menu item; `id` and `createdDate` are get-only, the rest have setters. */
  datatype DangoItem = DangoItem(
    id: Guid,
    flavor: string,
    glazeType: string,
    skewerCount: int,
    sku: string,
    isNewArrival: bool,
    createdDate: Timestamp)
  {
    /**
     `DangoItem.Update`: every business field is overwritten, the SKU only by a
     non-empty one; the id and the creation date stay.
     */
    function Update(flavor: string, glazeType: string, skewerCount: int, sku: Option<string>, isNewArrival: bool): (r: DangoItem)
      ensures r.id == id && r.createdDate == createdDate
      ensures r.flavor == flavor && r.glazeType == glazeType
      ensures r.skewerCount == skewerCount && r.isNewArrival == isNewArrival
      ensures IsNullOrEmpty(sku) ==> r.sku == this.sku
      ensures !IsNullOrEmpty(sku) ==> r.sku == sku.value
    {
      var newSku := if IsNullOrEmpty(sku) then this.sku else sku.value;
      this.(flavor := flavor, glazeType := glazeType, skewerCount := skewerCount, sku := newSku, isNewArrival := isNewArrival)
    }
  }

  /** The body of POST and PUT. */
  datatype DangoRequest = DangoRequest(
    flavor: string,
    glazeType: string,
    skewerCount: int,
    isNewArrival: bool,
    sku: Option<string>)

  /** The body of PATCH: every field may be absent. */
  datatype DangoPartialUpdate = DangoPartialUpdate(
    flavor: Option<string>,
    glazeType: Option<string>,
    skewerCount: Option<int>,
    sku: Option<string>,
    isNewArrival: Option<bool>)

  function IdOf(d: DangoItem): Guid {
    d.id
  }

  /** The initial value of `_skuCounter`. */
  const SkuSeed: nat := 1000

  /** The SKUs generated so far, given the clock reading at each generation. */
  function IssuedSkus(dates: seq<LocalDate>): seq<string> {
    seq(|dates|, k requires 0 <= k < |dates| => Sku(dates[k], SkuSeed + k))
  }

  /** No two SKUs the counter has produced are equal. */
  lemma IssuedSkusDistinct(dates: seq<LocalDate>)
    ensures forall i, j :: 0 <= i < j < |dates| ==> IssuedSkus(dates)[i] != IssuedSkus(dates)[j]
  {
    var issued := IssuedSkus(dates);
    forall i, j | 0 <= i < j < |dates|
      ensures issued[i] != issued[j]
    {
      if issued[i] == issued[j] {
        SkuInjective(dates[i], SkuSeed + i, dates[j], SkuSeed + j);
      }
    }
  }

  class DangosController {
    /** `DangoMenu`, in insertion order. */
    var menu: seq<DangoItem>
    /** `_skuCounter`: the number the next generated SKU carries. */
    var skuCounter: nat
    /** The clock reading at each SKU generation so far. */
    ghost var skuDates: seq<LocalDate>

    /** Ids are unique, and the counter has moved once per generated SKU. */
    ghost predicate Valid()
      reads this
    {
      Store.UniqueKeys(menu, IdOf) && skuCounter == SkuSeed + |skuDates|
    }

    /** The static initial state: an empty menu and the counter at its seed. */
    constructor ()
      ensures Valid()
      ensures menu == [] && skuCounter == SkuSeed && skuDates == []
    {
      menu := [];
      skuCounter := SkuSeed;
      skuDates := [];
    }

    /** GET api/dango: the whole menu, in insertion order. */
    function GetAllDango(): (r: Response<seq<DangoItem>>)
      reads this
      ensures r.Ok? && r.body == menu
    {
      Ok(menu)
    }

    /** GET api/dango/{id}: the item with that id, or NotFound when there is none. */
    function GetDango(id: Guid): (r: Response<DangoItem>)
      reads this
      ensures r.Ok? || r.NotFound?
      ensures r.NotFound? <==> forall d :: d in menu ==> d.id != id
      ensures r.Ok? ==> r.body in menu && r.body.id == id
    {
      match Store.Find(menu, IdOf, id)
      case None => NotFound
      case Some(i) => Ok(menu[i])
    }

    /**
     `GenerateSku`: a SKU from the current counter, which is then incremented.
     The SKU differs from every SKU generated before.
     */
    method GenerateSku(now: LocalDate) returns (sku: string)
      requires Valid()
      modifies this
      ensures Valid()
      ensures sku == Sku(now, old(skuCounter)) && skuCounter == old(skuCounter) + 1
      ensures skuDates == old(skuDates) + [now] && menu == old(menu)
      ensures IssuedSkus(skuDates) == IssuedSkus(old(skuDates)) + [sku]
      ensures sku !in IssuedSkus(old(skuDates))
    {
      sku := Sku(now, skuCounter);
      forall k | 0 <= k < |skuDates|
        ensures IssuedSkus(skuDates)[k] != sku
      {
        if IssuedSkus(skuDates)[k] == sku {
          SkuInjective(skuDates[k], SkuSeed + k, now, skuCounter);
        }
      }
      skuCounter := skuCounter + 1;
      skuDates := skuDates + [now];
    }

    /**
     POST api/dango: a non-positive skewer count is refused before anything
     changes; otherwise a new item with the fresh id is appended, carrying the
     request's SKU or, when that is null or empty, a generated one.
     */
    method AddDango(request: DangoRequest, freshId: Guid, now: LocalDate, utcNow: Timestamp) returns (r: Response<DangoItem>)
      requires Valid()
      requires forall d :: d in menu ==> d.id != freshId
      modifies this
      ensures Valid()
      ensures request.skewerCount <= 0 ==>
        && r == BadRequest("Invalid skewer count")
        && menu == old(menu) && skuCounter == old(skuCounter) && skuDates == old(skuDates)
      ensures request.skewerCount > 0 ==>
        && r.Created? && r.location == freshId
        && menu == old(menu) + [r.body]
        && r.body.id == freshId && r.body.createdDate == utcNow
        && r.body.flavor == request.flavor && r.body.glazeType == request.glazeType
        && r.body.skewerCount == request.skewerCount && r.body.isNewArrival == request.isNewArrival
        && GetDango(freshId) == Ok(r.body)
      ensures request.skewerCount > 0 && IsNullOrEmpty(request.sku) ==>
        && r.body.sku == Sku(now, old(skuCounter))
        && skuCounter == old(skuCounter) + 1 && skuDates == old(skuDates) + [now]
      ensures request.skewerCount > 0 && !IsNullOrEmpty(request.sku) ==>
        && r.body.sku == request.sku.value
        && skuCounter == old(skuCounter) && skuDates == old(skuDates)
    {
      if request.skewerCount <= 0 {
        return BadRequest("Invalid skewer count");
      }
      var sku: string;
      if IsNullOrEmpty(request.sku) {
        sku := GenerateSku(now);
      } else {
        sku := request.sku.value;
      }
      var newDango := DangoItem(freshId, request.flavor, request.glazeType, request.skewerCount, sku, request.isNewArrival, utcNow);
      Store.AppendFresh(menu, IdOf, newDango);
      menu := menu + [newDango];
      r := Created(newDango.id, newDango);
    }

    /**
     POST api/dango/initialize: a non-empty menu is left alone; an empty one
     becomes the default menu, unless that could not be read.
     */
    method InitializeMenu(defaultMenu: Option<seq<DangoItem>>) returns (r: Response<string>)
      requires Valid()
      requires |menu| == 0 && defaultMenu.Some? ==> Store.UniqueKeys(defaultMenu.value, IdOf)
      modifies this
      ensures Valid() && skuCounter == old(skuCounter) && skuDates == old(skuDates)
      ensures |old(menu)| != 0 ==> r == Ok("Menu initialized") && menu == old(menu)
      ensures |old(menu)| == 0 && defaultMenu.None? ==>
        r == BadRequest("Unable to read default menu") && menu == old(menu)
      ensures |old(menu)| == 0 && defaultMenu.Some? ==>
        r == Ok("Menu initialized") && menu == defaultMenu.value
    {
      if |menu| != 0 {
        return Ok("Menu initialized");
      }
      if defaultMenu.None? {
        return BadRequest("Unable to read default menu");
      }
      menu := menu + defaultMenu.value;
      r := Ok("Menu initialized");
    }

    /**
     PUT api/dango/{id}: NotFound when no item has the id; otherwise that item
     is updated in place and every other item is left as it was.
     */
    method UpdateDango(id: Guid, request: DangoRequest) returns (r: Response<DangoItem>)
      requires Valid()
      modifies this
      ensures Valid() && skuCounter == old(skuCounter) && skuDates == old(skuDates)
      ensures match Store.Find(old(menu), IdOf, id)
        case None => r == NotFound && menu == old(menu)
        case Some(i) =>
          && r == NoContent
          && menu == old(menu)[i := old(menu)[i].Update(request.flavor, request.glazeType, request.skewerCount, request.sku, request.isNewArrival)]
      ensures old(GetDango(id)).Ok? ==>
        GetDango(id) == Ok(old(GetDango(id)).body.Update(request.flavor, request.glazeType, request.skewerCount, request.sku, request.isNewArrival))
    {
      var found := Store.Find(menu, IdOf, id);
      if found.None? {
        return NotFound;
      }
      var i := found.value;
      var dango := menu[i].Update(request.flavor, request.glazeType, request.skewerCount, request.sku, request.isNewArrival);
      Store.ReplaceSameKey(menu, IdOf, i, dango);
      menu := menu[i := dango];
      Store.FindUnique(menu, IdOf, i);
      r := NoContent;
    }

    /**
     PATCH api/dango/{id}: NotFound when no item has the id; otherwise only the
     fields the request carries (a non-empty string, a present value) are
     written, and nothing else changes.
     */
    method PartialUpdate(id: Guid, request: DangoPartialUpdate) returns (r: Response<DangoItem>)
      requires Valid()
      modifies this
      ensures Valid() && skuCounter == old(skuCounter) && skuDates == old(skuDates)
      ensures match Store.Find(old(menu), IdOf, id)
        case None => r == NotFound && menu == old(menu)
        case Some(i) =>
          && r == NoContent
          && |menu| == |old(menu)|
          && (forall j :: 0 <= j < |menu| && j != i ==> menu[j] == old(menu)[j])
          && var before, after := old(menu)[i], menu[i];
          && after.id == before.id && after.createdDate == before.createdDate
          && after.flavor == (if IsNullOrEmpty(request.flavor) then before.flavor else request.flavor.value)
          && after.glazeType == (if IsNullOrEmpty(request.glazeType) then before.glazeType else request.glazeType.value)
          && after.skewerCount == (if request.skewerCount.Some? then request.skewerCount.value else before.skewerCount)
          && after.sku == (if IsNullOrEmpty(request.sku) then before.sku else request.sku.value)
          && after.isNewArrival == (if request.isNewArrival.Some? then request.isNewArrival.value else before.isNewArrival)
    {
      var found := Store.Find(menu, IdOf, id);
      if found.None? {
        return NotFound;
      }
      var i := found.value;
      var dango := menu[i];
      if !IsNullOrEmpty(request.flavor) {
        dango := dango.(flavor := request.flavor.value);
      }
      if !IsNullOrEmpty(request.glazeType) {
        dango := dango.(glazeType := request.glazeType.value);
      }
      if request.skewerCount.Some? {
        dango := dango.(skewerCount := request.skewerCount.value);
      }
      if !IsNullOrEmpty(request.sku) {
        dango := dango.(sku := request.sku.value);
      }
      if request.isNewArrival.Some? {
        dango := dango.(isNewArrival := request.isNewArrival.value);
      }
      Store.ReplaceSameKey(menu, IdOf, i, dango);
      menu := menu[i := dango];
      r := NoContent;
    }

    /**
     DELETE api/dango/{id}: NotFound when no item has the id; otherwise exactly
     that item is removed, the rest keeping their order. Afterwards no item
     has the id, so a repeated delete is NotFound.
     */
    method DeleteDango(id: Guid) returns (r: Response<DangoItem>)
      requires Valid()
      modifies this
      ensures Valid() && skuCounter == old(skuCounter) && skuDates == old(skuDates)
      ensures match Store.Find(old(menu), IdOf, id)
        case None => r == NotFound && menu == old(menu)
        case Some(i) => r == NoContent && menu == Store.RemoveAt(old(menu), i)
      ensures GetDango(id) == NotFound
    {
      var found := Store.Find(menu, IdOf, id);
      if found.None? {
        return NotFound;
      }
      var i := found.value;
      Store.RemoveUnique(menu, IdOf, i);
      menu := Store.RemoveAt(menu, i);
      r := NoContent;
    }
  }
}
