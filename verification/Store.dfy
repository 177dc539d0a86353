/** The device's store: the records by id, the pull cursor and the unacknowledged push batches. */
module Store {
  import opened Domain
  import opened Merge
  import opened Device

  const CURRENT_FORMAT_VERSION := 1

  datatype KdfParams = KdfParams(time: nat, memory: nat, threads: nat, keyLen: nat)

  /** The user's key material, as the server keeps it, and the tokens of the session. */
  datatype Profile = Profile(kdfSalt: seq<Byte>, kdfParams: KdfParams, wrappedDataKey: seq<Byte>)

  datatype Tokens = Tokens(authToken: string, refreshToken: string)

  const NO_PROFILE := Profile([], KdfParams(0, 0, 0, 0), [])

  /** A copy of everything in the store, for writing it to a file. */
  datatype Snapshot = Snapshot(
    version: int, profile: Profile, tokens: Tokens, lastSyncVersion: int, lastSyncAt: Time, records: Records,
    pendingPush: array<PendingBatch>)

  lemma WithoutNext(batches: seq<PendingBatch>, i: nat, key: Key)
    requires i < |batches|
    ensures Without(batches[..i + 1], key) ==
            Without(batches[..i], key) + if batches[i].key == key then [] else [batches[i]]
  {
    assert batches[..i + 1][..i] == batches[..i];
  }

  class Store {
    const version: int
    var profile: Profile
    var tokens: Tokens
    var records: Records
    var lastSyncVersion: int
    var lastSyncAt: Time

    // Go's slice of pending batches: a backing array and a length. Appending reuses spare capacity.
    var buf: array<PendingBatch>
    var len: nat

    ghost function Footprint(): set<object>
      reads this
    {
      {this, buf}
    }

    ghost predicate Valid()
      reads this
    {
      len <= buf.Length && Keyed(records)
    }

    ghost function State(): LocalState
      reads this, buf
      requires Valid()
    {
      LocalState(records, lastSyncVersion, buf[..len])
    }

    constructor ()
      ensures Valid() && fresh(Footprint())
      ensures State() == EMPTY_STORE && lastSyncAt == 0
      ensures version == CURRENT_FORMAT_VERSION && profile == NO_PROFILE && tokens == Tokens("", "")
    {
      version, profile, tokens := CURRENT_FORMAT_VERSION, NO_PROFILE, Tokens("", "");
      records, lastSyncVersion, lastSyncAt := map[], 0, 0;
      buf, len := new PendingBatch[0], 0;
    }

    method SetProfile(kdfSalt: seq<Byte>, kdfParams: KdfParams, wrappedDataKey: seq<Byte>)
      modifies this`profile
      ensures profile == Profile(kdfSalt, kdfParams, wrappedDataKey)
    {
      profile := Profile(kdfSalt, kdfParams, wrappedDataKey);
    }

    method SetTokens(authToken: string, refreshToken: string)
      modifies this`tokens
      ensures tokens == Tokens(authToken, refreshToken)
    {
      tokens := Tokens(authToken, refreshToken);
    }

    method GetRecord(id: Id) returns (r: Option<StoredRecord>)
      ensures r == if id in records then Some(records[id]) else None
    {
      r := if id in records then Some(records[id]) else None;
    }

    method PutRecord(r: StoredRecord)
      requires Valid()
      modifies this`records
      ensures Valid()
      ensures records == Put(old(records), r)
    {
      records := records[r.dto.id := r];
    }

    method ListRecords() returns (result: seq<StoredRecord>)
      requires Valid()
      ensures forall i :: 0 <= i < |result| ==>
                result[i].dto.id in records && result[i] == records[result[i].dto.id]
      ensures forall i, j :: 0 <= i < j < |result| ==> result[i].dto.id != result[j].dto.id
      ensures forall id :: id in records ==> exists i :: 0 <= i < |result| && result[i].dto.id == id
    {
      result := [];
      var rest := records.Keys;
      while rest != {}
        invariant rest <= records.Keys
        invariant forall i :: 0 <= i < |result| ==>
                    && result[i].dto.id !in rest && result[i].dto.id in records
                    && result[i] == records[result[i].dto.id]
        invariant forall i, j :: 0 <= i < j < |result| ==> result[i].dto.id != result[j].dto.id
        invariant forall id :: id in records && id !in rest ==> exists i :: 0 <= i < |result| && result[i].dto.id == id
        decreases rest
      {
        var id :| id in rest;
        rest := rest - {id};
        ghost var before := result;
        result := result + [records[id]];
        assert result[|before|].dto.id == id;
        assert forall i :: 0 <= i < |before| ==> result[i] == before[i];
      }
    }

    method ListDirty() returns (result: seq<StoredRecord>)
      requires Valid()
      ensures ListsDirty(records, result)
    {
      result := [];
      var rest := records.Keys;
      while rest != {}
        invariant rest <= records.Keys
        invariant forall i :: 0 <= i < |result| ==>
                    && result[i].dto.id !in rest && result[i].dto.id in records
                    && result[i] == records[result[i].dto.id] && result[i].dirty
        invariant forall i, j :: 0 <= i < j < |result| ==> result[i].dto.id != result[j].dto.id
        invariant forall id :: id in records && records[id].dirty && id !in rest ==>
                    exists i :: 0 <= i < |result| && result[i].dto.id == id
        decreases rest
      {
        var id :| id in rest;
        rest := rest - {id};
        ghost var before := result;
        if records[id].dirty {
          result := result + [records[id]];
          assert result[|before|].dto.id == id;
        }
        assert forall i :: 0 <= i < |before| ==> result[i] == before[i];
      }
    }

    method SetLastSyncVersion(v: int)
      modifies this`lastSyncVersion
      ensures lastSyncVersion == v
    {
      lastSyncVersion := v;
    }

    method SetLastSyncAt(t: Time)
      modifies this`lastSyncAt
      ensures lastSyncAt == t
    {
      lastSyncAt := t;
    }

    method AddPendingPush(b: PendingBatch)
      requires Valid()
      modifies this`buf, this`len, buf
      ensures Valid() && (buf == old(buf) || fresh(buf))
      ensures State() == old(State()).(pending := old(State()).pending + [b])
    {
      if len == buf.Length {
        var grown := new PendingBatch[2 * len + 1];
        for i := 0 to len
          invariant grown[..i] == buf[..i]
          modifies grown
        {
          grown[i] := buf[i];
        }
        buf := grown;
      }
      buf[len] := b;
      len := len + 1;
    }

    /**
     * Filters the slice into its own backing array. Since nobody else holds that array, no list that was
     * handed out before changes.
     */
    method ClearPendingPush(key: Key)
      requires Valid()
      modifies this`len, buf
      ensures Valid()
      ensures State() == old(State()).(pending := Without(old(State()).pending, key))
    {
      ghost var all := buf[..len];
      var kept := 0;
      for i := 0 to len
        invariant kept <= i
        invariant buf[..kept] == Without(all[..i], key)
        invariant forall k :: i <= k < len ==> buf[k] == all[k]
        modifies buf
      {
        WithoutNext(all, i, key);
        if buf[i].key != key {
          ghost var sofar := buf[..kept];
          buf[kept] := buf[i];
          kept := kept + 1;
          assert buf[..kept] == sofar + [all[i]];
        }
      }
      assert all[..len] == all;
      len := kept;
    }

    /** The list is a copy: clearing batches later does not change it. */
    method PendingPushes() returns (list: array<PendingBatch>)
      requires Valid()
      ensures fresh(list)
      ensures list[..] == State().pending
    {
      list := new PendingBatch[len];
      for i := 0 to len
        invariant list[..i] == buf[..i]
        modifies list
      {
        list[i] := buf[i];
      }
    }

    /** The list of batches in it is a copy too. */
    method TakeSnapshot() returns (s: Snapshot)
      requires Valid()
      ensures fresh(s.pendingPush) && s.pendingPush[..] == State().pending
      ensures s == Snapshot(version, profile, tokens, lastSyncVersion, lastSyncAt, records, s.pendingPush)
    {
      var copied := PendingPushes();
      s := Snapshot(version, profile, tokens, lastSyncVersion, lastSyncAt, records, copied);
    }
  }
}
