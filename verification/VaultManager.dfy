/** The user's edits: they change the store only, and mark what they change as dirty. */
module VaultManager {
  import opened Domain
  import opened Merge
  import opened Device
  import opened Store
  import opened Syncer

  // 7 MiB
  const MAX_PLAINTEXT_PAYLOAD_BYTES := 7 * 1024 * 1024

  datatype Error = NotFound | PayloadTooLarge

  datatype Result<+T> = Ok(value: T) | Err(error: Error)

  /** dtos is an enumeration, without repetition, of the records that are not deleted. */
  ghost predicate ListsLive(records: Records, dtos: seq<RecordDTO>) {
    && DistinctIds(dtos)
    && (forall dto :: dto in dtos <==>
          dto.id in records && records[dto.id].dto == dto && !dto.isDeleted)
  }

  class VaultManager {
    const store: Store
    const env: Environment

    constructor (store: Store, env: Environment)
      ensures this.store == store && this.env == env
    {
      this.store, this.env := store, env;
    }

    /** size is that of the payload before encryption. A fresh id never hits a record of the store. */
    method Create(kind: DataType, payload: Payload, size: nat) returns (r: Result<RecordDTO>)
      requires store.Valid() && forall id :: id in store.records ==> id < env.nextId
      modifies store`records, env
      ensures store.Valid() && forall id :: id in store.records ==> id < env.nextId
      ensures r == Err(PayloadTooLarge) <==> size > MAX_PLAINTEXT_PAYLOAD_BYTES
      ensures r.Err? ==> r.error == PayloadTooLarge && store.records == old(store.records)
      ensures r.Ok? ==>
                && r.value.id !in old(store.records) && r.value.id in store.records
                && r.value == store.records[r.value.id].dto
                && store.records == ApplyEdit(old(store.records), Edit.Create(r.value.id, kind, payload, env.now))
                && r.value.kind == kind && r.value.payload == payload && !r.value.isDeleted
                && r.value.version == 0 && r.value.baseVersion == 0
                && store.records == old(store.records)[r.value.id := StoredRecord(r.value, true, env.now)]
    {
      if size > MAX_PLAINTEXT_PAYLOAD_BYTES {
        return Err(PayloadTooLarge);
      }
      var id := env.NewString();
      var now := env.Now();
      var dto := RecordDTO(id, kind, payload, 0, 0, 0, false);
      store.PutRecord(StoredRecord(dto, true, now));
      r := Ok(dto);
    }

    method Update(id: Id, payload: Payload, size: nat) returns (r: Result<RecordDTO>)
      requires store.Valid()
      modifies store`records, env`now
      ensures store.Valid()
      ensures r == Err(NotFound) <==> id !in old(store.records)
      ensures r == Err(PayloadTooLarge) <==> id in old(store.records) && size > MAX_PLAINTEXT_PAYLOAD_BYTES
      ensures r.Err? ==> store.records == old(store.records)
      ensures r.Ok? ==>
                && store.records == ApplyEdit(old(store.records), Edit.Update(id, payload, env.now))
                && r.value == store.records[id].dto
                && var before := old(store.records)[id].dto;
                && r.value.id == before.id && r.value.kind == before.kind && r.value.payload == payload
                && r.value.isDeleted == before.isDeleted && r.value.updatedAt == before.updatedAt
                && r.value.version == before.version && r.value.baseVersion == before.version
                && store.records == old(store.records)[id := StoredRecord(r.value, true, env.now)]
    {
      var existing := store.GetRecord(id);
      if existing.None? {
        return Err(NotFound);
      }
      if size > MAX_PLAINTEXT_PAYLOAD_BYTES {
        return Err(PayloadTooLarge);
      }
      var dto := existing.value.dto;
      dto := dto.(payload := payload, baseVersion := dto.version);
      var now := env.Now();
      store.PutRecord(StoredRecord(dto, true, now));
      r := Ok(dto);
    }

    method Delete(id: Id) returns (r: Result<()>)
      requires store.Valid()
      modifies store`records, env`now
      ensures store.Valid()
      ensures r == if id in old(store.records) then Ok(()) else Err(NotFound)
      ensures r.Err? ==> store.records == old(store.records)
      ensures r.Ok? ==> store.records == ApplyEdit(old(store.records), Edit.Remove(id, env.now))
      ensures r.Ok? ==>
                && id in store.records && store.records == old(store.records)[id := store.records[id]]
                && store.records[id].dirty && store.records[id].dirtyAt == env.now
                && var before, after := old(store.records)[id].dto, store.records[id].dto;
                && after.isDeleted && after.id == before.id && after.kind == before.kind
                && after.payload == before.payload && after.updatedAt == before.updatedAt
                && after.version == before.version && after.baseVersion == before.version
    {
      var existing := store.GetRecord(id);
      if existing.None? {
        return Err(NotFound);
      }
      var now := env.Now();
      var dto := existing.value.dto;
      store.PutRecord(StoredRecord(dto.(isDeleted := true, baseVersion := dto.version), true, now));
      r := Ok(());
    }

    method Import(dtos: seq<RecordDTO>)
      requires store.Valid()
      modifies store`records, env`now
      ensures store.Valid()
      ensures store.records == ApplyEdit(old(store.records), Edit.Import(dtos, env.now))
      ensures forall id :: id in store.records <==> id in old(store.records) || LastAbout(dtos, id).Some?
      ensures forall id :: id in store.records ==>
                store.records[id] ==
                match LastAbout(dtos, id)
                case None => old(store.records)[id]
                case Some(dto) => StoredRecord(dto.(baseVersion := dto.version), true, env.now)
    {
      var now := env.Now();
      for i := 0 to |dtos|
        invariant store.Valid() && store.records == ImportAll(old(store.records), dtos[..i], now)
        invariant env.now == now
      {
        assert dtos[..i + 1][..i] == dtos[..i];
        store.PutRecord(StoredRecord(dtos[i].(baseVersion := dtos[i].version), true, now));
      }
      assert dtos[..|dtos|] == dtos;
      forall id
        ensures id in store.records <==> id in old(store.records) || LastAbout(dtos, id).Some?
        ensures id in store.records ==>
                  store.records[id] ==
                  match LastAbout(dtos, id)
                  case None => old(store.records)[id]
                  case Some(dto) => StoredRecord(dto.(baseVersion := dto.version), true, env.now)
      {
        ImportedIsLast(old(store.records), dtos, env.now, id);
      }
    }

    method List() returns (live: seq<RecordDTO>)
      requires store.Valid()
      ensures ListsLive(store.records, live)
    {
      var all := store.ListRecords();
      live := [];
      for i := 0 to |all|
        invariant forall dto :: dto in live ==> exists k :: 0 <= k < i && all[k].dto == dto && !dto.isDeleted
        invariant forall k :: 0 <= k < i && !all[k].dto.isDeleted ==> all[k].dto in live
        invariant DistinctIds(live)
      {
        if !all[i].dto.isDeleted {
          live := live + [all[i].dto];
        }
      }
    }
  }
}
