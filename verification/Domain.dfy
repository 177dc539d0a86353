/** The entities that the client, the server and the wire share. */
module Domain {

  // Uuids and owner names are only ever compared for equality, so numbers stand for them.
  type Id = nat
  type Owner = nat
  type Key = nat

  // A clock reading in nanoseconds; 0 is Go's zero time, and no clock reading is before it.
  type Time = nat

  newtype Byte = x: int | 0 <= x < 256

  datatype Option<+T> = None | Some(value: T)

  datatype DataType = Unknown | Credentials | Text | Binary | Card | OTP

  /** What the user stored, already encrypted: opaque to the whole protocol. */
  datatype Payload = Payload(
    encryptedMeta: seq<Byte>, metaNonce: seq<Byte>, ciphertext: seq<Byte>, nonce: seq<Byte>)

  /** A record on the wire. */
  datatype RecordDTO = RecordDTO(
    id: Id, kind: DataType, payload: Payload, baseVersion: int, version: int, updatedAt: Time, isDeleted: bool)

  /** A record in a device's store. */
  datatype StoredRecord = StoredRecord(dto: RecordDTO, dirty: bool, dirtyAt: Time)

  /** A record in the server's repository. */
  datatype Record = Record(
    id: Id, owner: Owner, kind: DataType, payload: Payload, version: int, updatedAt: Time, deleted: bool)

  datatype PendingBatch = PendingBatch(key: Key, ids: seq<Id>)

  datatype PushStatus = Applied | Conflict

  datatype PushResult = PushResult(id: Id, status: PushStatus, serverRecord: RecordDTO)

  /** What the user sees of a record: everything except its place in the version order. */
  datatype Content = Content(kind: DataType, payload: Payload, deleted: bool)

  function DtoContent(dto: RecordDTO): Content {
    Content(dto.kind, dto.payload, dto.isDeleted)
  }

  function RecordContent(rec: Record): Content {
    Content(rec.kind, rec.payload, rec.deleted)
  }

  function RecordToDTO(rec: Record): RecordDTO {
    RecordDTO(rec.id, rec.kind, rec.payload, 0, rec.version, rec.updatedAt, rec.deleted)
  }

  /** The server assigns the version and the time of change; neither comes from the client. */
  function DTOToRecord(dto: RecordDTO, owner: Owner): Record {
    Record(dto.id, owner, dto.kind, dto.payload, 0, 0, dto.isDeleted)
  }

  predicate DistinctIds(dtos: seq<RecordDTO>) {
    forall i, j :: 0 <= i < j < |dtos| ==> dtos[i].id != dtos[j].id
  }
}
