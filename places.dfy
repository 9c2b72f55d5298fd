/** The data layer for places with a structured location (data/places.js):
    create, look up, and owner-only update and delete over the `places`
    collection, modelled as a map from document id to record. */
module Places {
  import opened Text
  import opened Js
  import opened PlaceFields

  datatype Location = Location(address: string, city: string, state: string, zip: string)

  datatype Place = Place(
    name: string,
    placeType: string,
    services: seq<string>,
    location: Location,
    addedBy: Id,
    averageRating: real,
    reviewCount: int,
    createdAt: Time,
    updatedAt: Time)

  /** The form fields `updatePlace` reads from `updateData`. */
  datatype PlaceUpdate = PlaceUpdate(
    name: string,
    placeType: string,
    services: ListInput,
    address: string,
    city: string,
    state: string,
    zip: string)

  function TrimLocation(loc: Location): (r: Location)
    ensures IsTrimmed(r.address) && IsTrimmed(r.city) && IsTrimmed(r.state) && IsTrimmed(r.zip)
  {
    Location(Trim(loc.address), Trim(loc.city), Trim(loc.state), Trim(loc.zip))
  }

  /** The `$set` of `updatePlace` applied to a stored record: the mutable
      fields are overwritten with trimmed input and `updatedAt` is refreshed;
      the owner, the rating counters and the creation time stay as they were. */
  function Revised(existing: Place, data: PlaceUpdate, now: Time): (r: Place)
    ensures r.name == Trim(data.name) && r.placeType == Trim(data.placeType)
    ensures r.services == ToTrimmedList(data.services)
    ensures r.location == TrimLocation(Location(data.address, data.city, data.state, data.zip))
    ensures r.updatedAt == now
    ensures r.addedBy == existing.addedBy && r.createdAt == existing.createdAt
    ensures r.averageRating == existing.averageRating && r.reviewCount == existing.reviewCount
  {
    existing.(
      name := Trim(data.name),
      placeType := Trim(data.placeType),
      services := ToTrimmedList(data.services),
      location := TrimLocation(Location(data.address, data.city, data.state, data.zip)),
      updatedAt := now)
  }

  class PlaceStore {
    /** The `places` collection, by `_id`. */
    var places: map<Id, Place>
    /** `ObjectId.isValid` on strings. */
    const isValidId: string -> bool

    /** Every record's owner is a well-formed ObjectId: it was checked when the
        record was created and no operation here changes it. */
    ghost predicate Valid()
      reads this
    {
      forall id :: id in places ==> isValidId(places[id].addedBy)
    }

    constructor (isValidId: string -> bool, existing: map<Id, Place>)
      requires forall id :: id in existing ==> isValidId(existing[id].addedBy)
      ensures Valid()
      ensures this.isValidId == isValidId && places == existing
    {
      this.isValidId := isValidId;
      places := existing;
    }

    /** `createPlace`: `newId` is the `_id` the driver generates and `now`
        the creation time. */
    method CreatePlace(name: string, placeType: string, services: seq<string>, location: Location,
                       addedBy: string, newId: Id, now: Time) returns (r: Result<Place>)
      requires Valid()
      modifies this
      ensures Valid()
      ensures !isValidId(addedBy) ==> r == Err("Invalid user ID format: " + addedBy)
      ensures isValidId(addedBy) && newId in old(places) ==> r == Err(DuplicateKey)
      ensures r.Err? ==> places == old(places)
      ensures r.Ok? <==> isValidId(addedBy) && newId !in old(places)
      ensures r.Ok? ==> places == old(places)[newId := r.value]
      ensures r.Ok? ==>
                && r.value.name == Trim(name) && r.value.placeType == Trim(placeType)
                && r.value.services == TrimEach(services)
                && r.value.location == TrimLocation(location)
                && r.value.addedBy == addedBy
                && r.value.averageRating == 0.0 && r.value.reviewCount == 0
                && r.value.createdAt == now && r.value.updatedAt == now
    {
      if !isValidId(addedBy) {
        return Err("Invalid user ID format: " + addedBy);
      }
      var placeToInsert := Place(
        Trim(name), Trim(placeType), TrimEach(services), TrimLocation(location),
        addedBy, 0.0, 0, now, now);
      if newId in places {
        return Err(DuplicateKey);
      }
      places := places[newId := placeToInsert];
      r := Ok(places[newId]);
    }

    /** `getPlaceById`: a read that never changes the collection. */
    method GetPlaceById(id: string) returns (r: Result<Place>)
      ensures !isValidId(id) ==> r == Err("Invalid ID")
      ensures isValidId(id) && id !in places ==> r == Err("Place not found")
      ensures isValidId(id) && id in places ==> r == Ok(places[id])
    {
      if !isValidId(id) {
        return Err("Invalid ID");
      }
      if id !in places {
        return Err("Place not found");
      }
      r := Ok(places[id]);
    }

    /** `updateOne({_id: id, addedBy: owner}, {$set: ...})`: the filter
        matches only a record with that id AND that owner. Every stored owner is a well-formed id, so a
        malformed owner matches nothing. */
    method UpdateOne(id: Id, owner: Id, data: PlaceUpdate, now: Time) returns (matchedCount: nat, modifiedCount: nat)
      requires Valid()
      modifies this
      ensures Valid()
      ensures matchedCount == if id in old(places) && old(places)[id].addedBy == owner then 1 else 0
      ensures !isValidId(owner) ==> matchedCount == 0
      ensures matchedCount == 1 ==> places == old(places)[id := Revised(old(places)[id], data, now)]
      ensures matchedCount == 0 ==> places == old(places)
      ensures modifiedCount == if matchedCount == 1 && places != old(places) then 1 else 0
    {
      if id in places && places[id].addedBy == owner {
        var before := places;
        places := places[id := Revised(places[id], data, now)];
        matchedCount := 1;
        modifiedCount := if places != before then 1 else 0;
      } else {
        matchedCount, modifiedCount := 0, 0;
      }
    }

    /** `updatePlace`: only the owner of an existing record may overwrite it;
        every failure leaves the collection as it was. */
    method UpdatePlace(placeId: string, userId: string, data: PlaceUpdate, now: Time) returns (r: Result<Place>)
      requires Valid()
      modifies this
      ensures Valid()
      ensures !isValidId(placeId) ==> r == Err("Invalid place ID")
      ensures isValidId(placeId) && !isValidId(userId) ==> r == Err("Invalid user ID")
      ensures isValidId(placeId) && isValidId(userId) && placeId !in old(places) ==> r == Err("Place not found")
      ensures (isValidId(placeId) && isValidId(userId) && placeId in old(places)
               && old(places)[placeId].addedBy != userId) ==> r == Err("You are not the owner")
      ensures r.Err? ==> places == old(places)
      ensures r.Ok? <==> isValidId(placeId) && isValidId(userId) && placeId in old(places)
                         && old(places)[placeId].addedBy == userId
      ensures r.Ok? ==> r.value == Revised(old(places)[placeId], data, now)
                        && places == old(places)[placeId := r.value]
    {
      if !isValidId(placeId) {
        return Err("Invalid place ID");
      }
      if !isValidId(userId) {
        return Err("Invalid user ID");
      }
      if placeId !in places {
        return Err("Place not found");
      }
      var existingPlace := places[placeId];
      if existingPlace.addedBy != userId {
        return Err("You are not the owner");
      }
      var matchedCount, modifiedCount := UpdateOne(placeId, userId, data, now);
      if modifiedCount == 0 && matchedCount == 0 {
        return Err("Update operation failed - no documents matched");
      }
      r := Ok(places[placeId]);
    }

    /** `deleteOne({_id: id, addedBy: owner})`. Every stored owner is a
        well-formed id, so a malformed owner deletes nothing. */
    method DeleteOne(id: Id, owner: Id) returns (deletedCount: nat)
      requires Valid()
      modifies this
      ensures Valid()
      ensures deletedCount == if id in old(places) && old(places)[id].addedBy == owner then 1 else 0
      ensures !isValidId(owner) ==> deletedCount == 0
      ensures places == if deletedCount == 1 then old(places) - {id} else old(places)
    {
      if id in places && places[id].addedBy == owner {
        places := places - {id};
        deletedCount := 1;
      } else {
        deletedCount := 0;
      }
    }

    /** `deletePlace`: the owner removes exactly that record; anyone else, or
        a missing record, fails with the collection unchanged. */
    method DeletePlace(placeId: string, userId: string) returns (r: Result<()>)
      requires Valid()
      modifies this
      ensures Valid()
      ensures !isValidId(placeId) ==> r == Err("Invalid place ID")
      ensures isValidId(placeId) && !isValidId(userId) ==> r == Err("Invalid user ID")
      ensures isValidId(placeId) && isValidId(userId) && placeId !in old(places) ==> r == Err("Place not found")
      ensures (isValidId(placeId) && isValidId(userId) && placeId in old(places)
               && old(places)[placeId].addedBy != userId) ==> r == Err("You can only delete places you created")
      ensures r.Err? ==> places == old(places)
      ensures r.Ok? <==> isValidId(placeId) && isValidId(userId) && placeId in old(places)
                         && old(places)[placeId].addedBy == userId
      ensures r.Ok? ==> places == old(places) - {placeId}
    {
      if !isValidId(placeId) {
        return Err("Invalid place ID");
      }
      if !isValidId(userId) {
        return Err("Invalid user ID");
      }
      if placeId !in places {
        return Err("Place not found");
      }
      var place := places[placeId];
      if place.addedBy != userId {
        return Err("You can only delete places you created");
      }
      var deletedCount := DeleteOne(placeId, userId);
      if deletedCount == 0 {
        return Err("Delete operation failed - no documents deleted");
      }
      r := Ok(());
    }
  }

  /** Creating a place and reading it back by the id it was stored under
      yields the record that was created. */
  method CreateThenGet(store: PlaceStore, name: string, placeType: string, services: seq<string>,
                       location: Location, addedBy: string, newId: Id, now: Time)
    returns (created: Result<Place>, found: Result<Place>)
    requires store.Valid() && store.isValidId(newId)
    modifies store
    ensures created.Ok? ==> found == created
  {
    created := store.CreatePlace(name, placeType, services, location, addedBy, newId, now);
    found := store.GetPlaceById(newId);
  }

  /** Updating a place by its owner and reading it back yields the revised
      record, whose owner and creation time are those of the original. */
  method UpdateThenGet(store: PlaceStore, placeId: string, userId: string, data: PlaceUpdate, now: Time)
    returns (updated: Result<Place>, found: Result<Place>)
    requires store.Valid()
    modifies store
    ensures updated.Ok? ==> found == updated && found.value.addedBy == userId
    ensures updated.Ok? ==>
              placeId in old(store.places) && found.value.createdAt == old(store.places)[placeId].createdAt
  {
    updated := store.UpdatePlace(placeId, userId, data, now);
    found := store.GetPlaceById(placeId);
  }
}
