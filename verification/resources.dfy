/** The resource table and the service that creates, reads, updates and deletes its rows. */
module Resources {
  import opened Common

  /** A bookable resource. `pricePerHour` is a database decimal, modelled exactly as a real. */
  datatype Resource = Resource(
    id: ResourceId,
    name: string,
    description: Option<string>,
    imageUrl: Option<string>,
    pricePerHour: real,
    ownerId: UserId)

  datatype CreateResourceDto = CreateResourceDto(name: string, description: Option<string>, pricePerHour: real)

  /** Every field is optional; an absent field leaves the stored value alone. */
  datatype UpdateResourceDto = UpdateResourceDto(
    name: Option<string>,
    description: Option<string>,
    pricePerHour: Option<real>,
    imageUrl: Option<string>)

  /** The row that an update with `dto` writes over `r`. The DTO has no id or owner field. */
  function Patched(r: Resource, dto: UpdateResourceDto): (p: Resource)
    ensures p.id == r.id && p.ownerId == r.ownerId
  {
    r.(name := dto.name.GetOr(r.name),
       description := if dto.description.Some? then dto.description else r.description,
       pricePerHour := dto.pricePerHour.GetOr(r.pricePerHour),
       imageUrl := if dto.imageUrl.Some? then dto.imageUrl else r.imageUrl)
  }

  /** An update that supplies no field leaves the row as it was. */
  lemma EmptyPatchIsIdentity(r: Resource)
    ensures Patched(r, UpdateResourceDto(None, None, None, None)) == r
  {
  }

  /** A supplied field replaces the stored value; an absent one keeps it. */
  lemma PatchedFields(r: Resource, dto: UpdateResourceDto)
    ensures dto.name.Some? ==> Patched(r, dto).name == dto.name.value
    ensures dto.name.None? ==> Patched(r, dto).name == r.name
    ensures dto.description.Some? ==> Patched(r, dto).description == dto.description
    ensures dto.description.None? ==> Patched(r, dto).description == r.description
    ensures dto.pricePerHour.Some? ==> Patched(r, dto).pricePerHour == dto.pricePerHour.value
    ensures dto.pricePerHour.None? ==> Patched(r, dto).pricePerHour == r.pricePerHour
    ensures dto.imageUrl.Some? ==> Patched(r, dto).imageUrl == dto.imageUrl
    ensures dto.imageUrl.None? ==> Patched(r, dto).imageUrl == r.imageUrl
  {
  }

  /** Applying the same update twice writes the same row as applying it once. */
  lemma PatchIdempotent(r: Resource, dto: UpdateResourceDto)
    ensures Patched(Patched(r, dto), dto) == Patched(r, dto)
  {
  }

  class ResourceService {
    var resources: map<ResourceId, Resource>
    var nextId: ResourceId

    /** Each row is stored under its own id, and every id handed out so far is below `nextId`. */
    ghost predicate Valid()
      reads this
    {
      forall id :: id in resources ==> resources[id].id == id && id < nextId
    }

    constructor ()
      ensures Valid() && resources == map[]
    {
      resources := map[];
      nextId := 0;
    }

    /** Inserts a new resource owned by `ownerId`; no other row changes. */
    method Create(dto: CreateResourceDto, ownerId: UserId) returns (r: Resource)
      requires Valid()
      modifies this
      ensures Valid()
      ensures r.id !in old(resources)
      ensures r.name == dto.name && r.description == dto.description && r.imageUrl == None
      ensures r.pricePerHour == dto.pricePerHour && r.ownerId == ownerId
      ensures resources == old(resources)[r.id := r]
    {
      r := Resource(nextId, dto.name, dto.description, None, dto.pricePerHour, ownerId);
      resources := resources[nextId := r];
      nextId := nextId + 1;
    }

    /** The row stored under `id`, if any. */
    method FindOne(id: ResourceId) returns (r: Option<Resource>)
      requires Valid()
      ensures id in resources <==> r.Some?
      ensures r.Some? ==> r.value == resources[id] && r.value.id == id
    {
      if id in resources {
        r := Some(resources[id]);
      } else {
        r := None;
      }
    }

    /** Every stored row, each exactly once, in no particular order. */
    method FindAll() returns (rows: seq<Resource>)
      requires Valid()
      ensures |rows| == |resources|
      ensures forall r :: r in rows ==> r.id in resources && resources[r.id] == r
      ensures forall id :: id in resources ==> resources[id] in rows
    {
      rows := [];
      var pending := resources.Keys;
      while pending != {}
        invariant pending <= resources.Keys
        invariant |rows| + |pending| == |resources|
        invariant forall r :: r in rows ==> r.id in resources && resources[r.id] == r && r.id !in pending
        invariant forall id :: id in resources && id !in pending ==> resources[id] in rows
        decreases |pending|
      {
        var id :| id in pending;
        rows := rows + [resources[id]];
        pending := pending - {id};
      }
    }

    /** Overwrites the supplied fields of the row `id`; fails with NotFound when there is none. */
    method Update(id: ResourceId, dto: UpdateResourceDto) returns (result: Result<Resource>)
      requires Valid()
      modifies this`resources
      ensures Valid()
      ensures id !in old(resources) ==> result == Err(NotFound) && resources == old(resources)
      ensures id in old(resources) ==>
                result == Ok(Patched(old(resources)[id], dto)) && resources == old(resources)[id := result.value]
    {
      if id !in resources {
        return Err(NotFound);
      }
      var updated := Patched(resources[id], dto);
      resources := resources[id := updated];
      result := Ok(updated);
    }

    /** Deletes the row `id` and returns it; fails with NotFound when there is none. */
    method Remove(id: ResourceId) returns (result: Result<Resource>)
      requires Valid()
      modifies this`resources
      ensures Valid()
      ensures id !in old(resources) ==> result == Err(NotFound) && resources == old(resources)
      ensures id in old(resources) ==> result == Ok(old(resources)[id]) && resources == old(resources) - {id}
    {
      if id !in resources {
        return Err(NotFound);
      }
      result := Ok(resources[id]);
      resources := resources - {id};
    }
  }
}
