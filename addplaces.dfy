/** The data layer for places with a flat address, a description and tags
    (data/addplaces.js): create, look up with list coercion, owner-only update
    and delete, and the listing of one user's places. */
module AddPlaces {
  import opened Text
  import opened Js
  import opened PlaceFields

  /** A list-valued field as found in the collection: an array, or, in records
      written before the field became a list, one bare value. */
  datatype StoredList = Items(items: seq<Value>) | Scalar(v: Value)

  datatype Place = Place(
    name: string,
    placeType: string,
    servicesOffered: StoredList,
    address: string,
    city: string,
    description: string,
    tags: StoredList,
    addedBy: Id,
    averageRating: real,
    reviewCount: int,
    dateAdded: Time)

  /** The form fields `updatePlace` reads from `updateData`. */
  datatype PlaceUpdate = PlaceUpdate(
    name: string,
    placeType: string,
    servicesOffered: ListInput,
    address: string,
    city: string,
    description: string,
    tags: ListInput)

  /** An array of strings as stored. */
  function Strings(items: seq<string>): (r: StoredList)
    ensures r.Items? && |r.items| == |items|
    ensures forall i :: 0 <= i < |items| ==> r.items[i] == Str(items[i])
  {
    Items(seq(|items|, i requires 0 <= i < |items| => Str(items[i])))
  }

  /** The coercion `getPlaceById` applies to `servicesOffered` and `tags`: an
      array passes through, a bare truthy value becomes a one-element array,
      a falsy one the empty array. */
  function AsList(f: StoredList): (r: StoredList)
    ensures r.Items?
    ensures f.Items? ==> r == f
    ensures f.Scalar? && Truthy(f.v) ==> r.items == [f.v]
    ensures f.Scalar? && !Truthy(f.v) ==> r.items == []
  {
    match f
    case Items(_) => f
    case Scalar(v) => if Truthy(v) then Items([v]) else Items([])
  }

  /** A record as `getPlaceById` returns it: both list fields coerced, every
      other field as stored. */
  function Normalized(p: Place): (r: Place)
    ensures r.servicesOffered.Items? && r.tags.Items?
    ensures r.servicesOffered == AsList(p.servicesOffered) && r.tags == AsList(p.tags)
    ensures r.name == p.name && r.placeType == p.placeType && r.address == p.address
    ensures r.city == p.city && r.description == p.description && r.addedBy == p.addedBy
    ensures r.averageRating == p.averageRating && r.reviewCount == p.reviewCount
    ensures r.dateAdded == p.dateAdded
  {
    p.(servicesOffered := AsList(p.servicesOffered), tags := AsList(p.tags))
  }

  /** Coercing twice is coercing once. */
  lemma NormalizedIdempotent(p: Place)
    ensures Normalized(Normalized(p)) == Normalized(p)
  {
  }

  /** The `$set` of `updatePlace` applied to a stored record: seven fields are
      overwritten; the owner, the rating counters and `dateAdded` are kept and
      no update time is recorded. */
  function Revised(existing: Place, data: PlaceUpdate): (r: Place)
    ensures r.name == Trim(data.name) && r.placeType == Trim(data.placeType)
    ensures r.servicesOffered == Strings(ToTrimmedList(data.servicesOffered))
    ensures r.address == Trim(data.address) && r.city == Trim(data.city)
    ensures r.description == Trim(data.description)
    ensures r.tags == Strings(ToTrimmedList(data.tags))
    ensures r.addedBy == existing.addedBy && r.dateAdded == existing.dateAdded
    ensures r.averageRating == existing.averageRating && r.reviewCount == existing.reviewCount
  {
    existing.(
      name := Trim(data.name),
      placeType := Trim(data.placeType),
      servicesOffered := Strings(ToTrimmedList(data.servicesOffered)),
      address := Trim(data.address),
      city := Trim(data.city),
      description := Trim(data.description),
      tags := Strings(ToTrimmedList(data.tags)))
  }

  /** The ids of a list of (id, record) pairs. */
  function IdsOf(found: seq<(Id, Place)>): set<Id>
  {
    set k | 0 <= k < |found| :: found[k].0
  }

  lemma IdsOfAppend(found: seq<(Id, Place)>, entry: (Id, Place))
    ensures IdsOf(found + [entry]) == IdsOf(found) + {entry.0}
  {
    var longer := found + [entry];
    assert longer[|found|] == entry;
    forall x | x in IdsOf(longer) ensures x in IdsOf(found) + {entry.0} {
      var k :| 0 <= k < |longer| && longer[k].0 == x;
      if k < |found| {
        assert found[k] == longer[k];
      }
    }
    forall x | x in IdsOf(found) ensures x in IdsOf(longer) {
      var k :| 0 <= k < |found| && found[k].0 == x;
      assert longer[k] == found[k];
    }
  }

  /** Writing the same update twice gives the record the first write gave. */
  lemma RevisedTwice(existing: Place, data: PlaceUpdate)
    ensures Revised(Revised(existing, data), data) == Revised(existing, data)
  {
  }

  /** Storing under a key the value already stored there leaves the
      collection as it was. */
  lemma RewriteSame(m: map<Id, Place>, id: Id, p: Place)
    requires id in m && m[id] == p
    ensures m[id := p] == m
  {
  }

  class PlaceStore {
    /** The `places` collection, by `_id`. */
    var places: map<Id, Place>
    /** `ObjectId.isValid` on strings. */
    const isValidId: string -> bool

    /** Every record's owner is a well-formed ObjectId: it was checked when the
        record was created and no operation here changes it. */
    ghost predicate Valid()
      reads this
    {
      forall id :: id in places ==> isValidId(places[id].addedBy)
    }

    /** The collection as found, legacy records with scalar lists included. */
    constructor (isValidId: string -> bool, existing: map<Id, Place>)
      requires forall id :: id in existing ==> isValidId(existing[id].addedBy)
      ensures Valid()
      ensures this.isValidId == isValidId && places == existing
    {
      this.isValidId := isValidId;
      places := existing;
    }

    /** `createPlace`: `newId` is the `_id` the driver generates and `now`
        the creation time. */
    method CreatePlace(name: string, placeType: string, servicesOffered: seq<string>, address: string,
                       city: string, description: string, tags: seq<string>, addedBy: string,
                       newId: Id, now: Time) returns (r: Result<Place>)
      requires Valid()
      modifies this
      ensures Valid()
      ensures !isValidId(addedBy) ==> r == Err("Invalid user ID format: " + addedBy)
      ensures isValidId(addedBy) && newId in old(places) ==> r == Err(DuplicateKey)
      ensures r.Err? ==> places == old(places)
      ensures r.Ok? <==> isValidId(addedBy) && newId !in old(places)
      ensures r.Ok? ==> places == old(places)[newId := r.value]
      ensures r.Ok? ==>
                && r.value.name == Trim(name) && r.value.placeType == Trim(placeType)
                && r.value.servicesOffered == Strings(TrimEach(servicesOffered))
                && r.value.address == Trim(address) && r.value.city == Trim(city)
                && r.value.description == Trim(description)
                && r.value.tags == Strings(TrimEach(tags))
                && r.value.addedBy == addedBy
                && r.value.averageRating == 0.0 && r.value.reviewCount == 0
                && r.value.dateAdded == now
    {
      if !isValidId(addedBy) {
        return Err("Invalid user ID format: " + addedBy);
      }
      var placeToInsert := Place(
        Trim(name), Trim(placeType), Strings(TrimEach(servicesOffered)), Trim(address),
        Trim(city), Trim(description), Strings(TrimEach(tags)), addedBy, 0.0, 0, now);
      if newId in places {
        return Err(DuplicateKey);
      }
      places := places[newId := placeToInsert];
      r := Ok(places[newId]);
    }

    /** `getPlaceById`: reads the record and coerces its list fields on the
        copy it returns; the collection itself is not touched. */
    method GetPlaceById(id: string) returns (r: Result<Place>)
      ensures !isValidId(id) ==> r == Err("Invalid ID")
      ensures isValidId(id) && id !in places ==> r == Err("Place not found")
      ensures isValidId(id) && id in places ==> r == Ok(Normalized(places[id]))
      ensures r.Ok? ==> r.value.servicesOffered.Items? && r.value.tags.Items?
    {
      if !isValidId(id) {
        return Err("Invalid ID");
      }
      if id !in places {
        return Err("Place not found");
      }
      var place := places[id];
      if !place.servicesOffered.Items? {
        place := place.(servicesOffered :=
          if Truthy(place.servicesOffered.v) then Items([place.servicesOffered.v]) else Items([]));
      }
      if !place.tags.Items? {
        place := place.(tags := if Truthy(place.tags.v) then Items([place.tags.v]) else Items([]));
      }
      r := Ok(place);
    }

    /** `updateOne({_id: id, addedBy: owner}, {$set: ...})`: matches only a
        record with that id AND that owner; a write that changes nothing
        matches without modifying. Every stored owner is a well-formed id,
        so a malformed owner matches nothing. */
    method UpdateOne(id: Id, owner: Id, data: PlaceUpdate) returns (matchedCount: nat, modifiedCount: nat)
      requires Valid()
      modifies this
      ensures Valid()
      ensures matchedCount == if id in old(places) && old(places)[id].addedBy == owner then 1 else 0
      ensures !isValidId(owner) ==> matchedCount == 0
      ensures matchedCount == 1 ==> places == old(places)[id := Revised(old(places)[id], data)]
      ensures matchedCount == 0 ==> places == old(places)
      ensures modifiedCount == if matchedCount == 1 && places != old(places) then 1 else 0
    {
      if id in places && places[id].addedBy == owner {
        var before := places;
        places := places[id := Revised(places[id], data)];
        matchedCount := 1;
        modifiedCount := if places != before then 1 else 0;
      } else {
        matchedCount, modifiedCount := 0, 0;
      }
    }

    /** `updatePlace`: only the owner of an existing record may overwrite it;
        every failure leaves the collection as it was. The post-write check
        fails only when nothing matched, so a write that changes nothing
        still succeeds. */
    method UpdatePlace(placeId: string, userId: string, data: PlaceUpdate) returns (r: Result<Place>)
      requires Valid()
      modifies this
      ensures Valid()
      ensures !isValidId(placeId) ==> r == Err("Invalid place ID")
      ensures isValidId(placeId) && !isValidId(userId) ==> r == Err("Invalid user ID")
      ensures isValidId(placeId) && isValidId(userId) && placeId !in old(places) ==> r == Err("Place not found")
      ensures (isValidId(placeId) && isValidId(userId) && placeId in old(places)
               && old(places)[placeId].addedBy != userId) ==> r == Err("You are not the owner")
      ensures r.Err? ==> places == old(places)
      ensures r.Ok? <==> isValidId(placeId) && isValidId(userId) && placeId in old(places)
                         && old(places)[placeId].addedBy == userId
      ensures r.Ok? ==> r.value == Revised(old(places)[placeId], data)
                        && places == old(places)[placeId := r.value]
    {
      if !isValidId(placeId) {
        return Err("Invalid place ID");
      }
      if !isValidId(userId) {
        return Err("Invalid user ID");
      }
      if placeId !in places {
        return Err("Place not found");
      }
      var existingPlace := places[placeId];
      if existingPlace.addedBy != userId {
        return Err("You are not the owner");
      }
      var matchedCount, modifiedCount := UpdateOne(placeId, userId, data);
      if modifiedCount == 0 && matchedCount == 0 {
        return Err("Update operation failed - no documents matched");
      }
      r := Ok(places[placeId]);
    }

    /** `deleteOne({_id: id, addedBy: owner})`. Every stored owner is a
        well-formed id, so a malformed owner deletes nothing. */
    method DeleteOne(id: Id, owner: Id) returns (deletedCount: nat)
      requires Valid()
      modifies this
      ensures Valid()
      ensures deletedCount == if id in old(places) && old(places)[id].addedBy == owner then 1 else 0
      ensures !isValidId(owner) ==> deletedCount == 0
      ensures places == if deletedCount == 1 then old(places) - {id} else old(places)
    {
      if id in places && places[id].addedBy == owner {
        places := places - {id};
        deletedCount := 1;
      } else {
        deletedCount := 0;
      }
    }

    /** `deletePlace`: the owner removes exactly that record; anyone else, or
        a missing record, fails with the collection unchanged. */
    method DeletePlace(placeId: string, userId: string) returns (r: Result<()>)
      requires Valid()
      modifies this
      ensures Valid()
      ensures !isValidId(placeId) ==> r == Err("Invalid place ID")
      ensures isValidId(placeId) && !isValidId(userId) ==> r == Err("Invalid user ID")
      ensures isValidId(placeId) && isValidId(userId) && placeId !in old(places) ==> r == Err("Place not found")
      ensures (isValidId(placeId) && isValidId(userId) && placeId in old(places)
               && old(places)[placeId].addedBy != userId) ==> r == Err("You can only delete places you created")
      ensures r.Err? ==> places == old(places)
      ensures r.Ok? <==> isValidId(placeId) && isValidId(userId) && placeId in old(places)
                         && old(places)[placeId].addedBy == userId
      ensures r.Ok? ==> places == old(places) - {placeId}
    {
      if !isValidId(placeId) {
        return Err("Invalid place ID");
      }
      if !isValidId(userId) {
        return Err("Invalid user ID");
      }
      if placeId !in places {
        return Err("Place not found");
      }
      var place := places[placeId];
      if place.addedBy != userId {
        return Err("You can only delete places you created");
      }
      var deletedCount := DeleteOne(placeId, userId);
      if deletedCount == 0 {
        return Err("Delete operation failed - no documents deleted");
      }
      r := Ok(());
    }

    /** `getPlacesByUser`: every record whose owner is `userId`, each once
        and paired with its id, and nothing else. */
    method GetPlacesByUser(userId: string) returns (r: Result<seq<(Id, Place)>>)
      ensures !isValidId(userId) ==> r == Err("Invalid user ID format: " + userId)
      ensures r.Ok? <==> isValidId(userId)
      ensures r.Ok? ==> IdsOf(r.value) == set id | id in places && places[id].addedBy == userId
      ensures r.Ok? ==> forall k :: 0 <= k < |r.value| ==>
                          r.value[k].0 in places && r.value[k].1 == places[r.value[k].0]
      ensures r.Ok? ==> forall j, k :: 0 <= j < k < |r.value| ==> r.value[j].0 != r.value[k].0
    {
      if !isValidId(userId) {
        return Err("Invalid user ID format: " + userId);
      }
      var remaining := places.Keys;
      var userPlaces: seq<(Id, Place)> := [];
      while remaining != {}
        invariant remaining <= places.Keys
        invariant forall k :: 0 <= k < |userPlaces| ==>
                    userPlaces[k].0 in places && userPlaces[k].0 !in remaining
                    && userPlaces[k].1 == places[userPlaces[k].0]
        invariant IdsOf(userPlaces) == set id | id in places && id !in remaining && places[id].addedBy == userId
        invariant forall j, k :: 0 <= j < k < |userPlaces| ==> userPlaces[j].0 != userPlaces[k].0
        decreases remaining
      {
        var id :| id in remaining;
        ghost var seen := set x | x in places && x !in remaining && places[x].addedBy == userId;
        if places[id].addedBy == userId {
          IdsOfAppend(userPlaces, (id, places[id]));
          userPlaces := userPlaces + [(id, places[id])];
          assert (set x | x in places && x !in remaining - {id} && places[x].addedBy == userId) == seen + {id};
        } else {
          assert (set x | x in places && x !in remaining - {id} && places[x].addedBy == userId) == seen;
        }
        remaining := remaining - {id};
      }
      r := Ok(userPlaces);
    }
  }

  /** A record created here already has list-valued fields, so reading it back
      by its id returns exactly the record that was created. */
  method CreateThenGet(store: PlaceStore, name: string, placeType: string, servicesOffered: seq<string>,
                       address: string, city: string, description: string, tags: seq<string>,
                       addedBy: string, newId: Id, now: Time)
    returns (created: Result<Place>, found: Result<Place>)
    requires store.Valid() && store.isValidId(newId)
    modifies store
    ensures created.Ok? ==> found == created
  {
    created := store.CreatePlace(name, placeType, servicesOffered, address, city, description, tags,
                                 addedBy, newId, now);
    found := store.GetPlaceById(newId);
  }

  /** An owner who submits the same update twice succeeds both times, and the
      second write leaves the collection as the first one left it. */
  method ResubmitUpdate(store: PlaceStore, placeId: string, userId: string, data: PlaceUpdate)
    returns (first: Result<Place>, second: Result<Place>)
    requires store.Valid()
    modifies store
    ensures first.Ok? ==> second == first
    ensures first.Ok? ==> store.places == old(store.places)[placeId := first.value]
  {
    first := store.UpdatePlace(placeId, userId, data);
    ghost var afterFirst := store.places;
    if first.Ok? {
      RevisedTwice(old(store.places)[placeId], data);
      RewriteSame(afterFirst, placeId, Revised(afterFirst[placeId], data));
    }
    second := store.UpdatePlace(placeId, userId, data);
  }
}
