/**
 * What a push does to the cursor. A reply moves it to the versions that the push was given, and so past
 * whatever others wrote after the pull: exactly when the server accepts one of the push's records.
 */
module MissedWrites {
  import opened Domain
  import opened Repository
  import opened SyncService
  import opened Merge
  import opened Convergence
  import D = Device

  // ---------------------------------------------------------------- a push that is accepted in full

  /** Every record of the request was written, answered with what the server now has, and nothing else changed. */
  ghost predicate FullyApplied(r: Repo, after: Repo, owner: Owner, dtos: seq<RecordDTO>, results: seq<PushResult>) {
    && GrewBy(r, after, owner)
    && |results| == |dtos|
    && (forall i :: 0 <= i < |dtos| ==>
          && results[i].status == Applied
          && Owns(after, owner, dtos[i].id)
          && after.records[dtos[i].id].id == dtos[i].id
          && r.counter < after.records[dtos[i].id].version <= after.counter
          && results[i].serverRecord == RecordToDTO(after.records[dtos[i].id]))
    && (forall id :: id in after.records && (forall i :: 0 <= i < |dtos| ==> dtos[i].id != id) ==>
          id in r.records && after.records[id] == r.records[id])
  }

  lemma OneMoreApplied(r: Repo, mid: Repo, owner: Owner, dtos: seq<RecordDTO>, results: seq<PushResult>,
                       dto: RecordDTO, now: Time)
    requires FullyApplied(r, mid, owner, dtos, results)
    requires forall i :: 0 <= i < |dtos| ==> dtos[i].id != dto.id
    requires dto.id in r.records ==> r.records[dto.id].owner == owner && r.records[dto.id].version == dto.baseVersion
    ensures var u := UpsertDTO(mid, owner, dto, now);
      FullyApplied(r, u.repo, owner, dtos + [dto], results + [ResultOf(dto, u)])
  {
    var u := UpsertDTO(mid, owner, dto, now);
    assert dto.id in mid.records <==> dto.id in r.records;
    assert !u.conflict;
    assert GrewBy(r, u.repo, owner);
    var all := dtos + [dto];
    forall id | id in u.repo.records && (forall i :: 0 <= i < |all| ==> all[i].id != id)
      ensures id in r.records && u.repo.records[id] == r.records[id]
    {
      assert all[|dtos|].id != id;
      forall i | 0 <= i < |dtos| ensures dtos[i].id != id { assert all[i] == dtos[i]; }
    }
  }

  /** The records are new to the server or based on its current version. */
  ghost predicate Acceptable(r: Repo, owner: Owner, dtos: seq<RecordDTO>) {
    && DistinctIds(dtos)
    && (forall i :: 0 <= i < |dtos| && dtos[i].id in r.records ==>
          r.records[dtos[i].id].owner == owner && r.records[dtos[i].id].version == dtos[i].baseVersion)
  }

  lemma AcceptablePrefix(r: Repo, owner: Owner, dtos: seq<RecordDTO>)
    requires Acceptable(r, owner, dtos) && dtos != []
    ensures Acceptable(r, owner, dtos[..|dtos| - 1])
  {
  }

  lemma {:induction false} LastApplied(r: Repo, before: PushRun, owner: Owner, dtos: seq<RecordDTO>, now: Time)
    requires Acceptable(r, owner, dtos) && dtos != []
    requires FullyApplied(r, before.repo, owner, dtos[..|dtos| - 1], before.results)
    ensures var u := UpsertDTO(before.repo, owner, dtos[|dtos| - 1], now);
      FullyApplied(r, u.repo, owner, dtos, before.results + [ResultOf(dtos[|dtos| - 1], u)])
  {
    var n := |dtos| - 1;
    OneMoreApplied(r, before.repo, owner, dtos[..n], before.results, dtos[n], now);
    assert dtos[..n] + [dtos[n]] == dtos;
  }

  /** A push of acceptable records is applied in full. */
  lemma {:induction false} PushApplies(r: Repo, owner: Owner, dtos: seq<RecordDTO>, writes: seq<Time>)
    requires |writes| >= |dtos| && Acceptable(r, owner, dtos)
    ensures var run := PushRecords(r, owner, dtos, writes);
      FullyApplied(r, run.repo, owner, dtos, run.results)
  {
    if dtos != [] {
      var n := |dtos| - 1;
      AcceptablePrefix(r, owner, dtos);
      PushApplies(r, owner, dtos[..n], writes);
      LastApplied(r, PushRecords(r, owner, dtos[..n], writes), owner, dtos, writes[n]);
    }
  }

  /**
   * Why nobody else may write during a Sync: a record that another device creates after this device's
   * pull and before its push gets a version below those of the push; applying the reply moves the
   * cursor past it, so the device does not have the record, and no later pull lists it.
   */
  lemma {:induction false} ForeignWriteDuringSyncIsMissed(
    repo: Repo, owner: Owner, store: D.LocalState, dtos: seq<RecordDTO>,
    writes: seq<Time>, foreign: Record, at: Time)
    requires dtos != [] && |writes| >= |dtos| && Acceptable(repo, owner, dtos) && store.cursor <= repo.counter
    requires foreign.owner == owner && foreign.id !in repo.records && foreign.id !in store.records
    requires forall i :: 0 <= i < |dtos| ==> dtos[i].id != foreign.id
    ensures var run := PushRecords(Upsert(repo, foreign, 0, at).repo, owner, dtos, writes);
      var after := D.Acknowledge(store, 0, run.results);
      && (forall i :: 0 <= i < |run.results| ==> run.results[i].status == Applied)
      && Owns(run.repo, owner, foreign.id)
      && foreign.id !in after.records
      && !Changed(run.repo, owner, after.cursor, foreign.id)
  {
    var repo1 := Upsert(repo, foreign, 0, at).repo;
    PushApplies(repo1, owner, dtos, writes);
    PushFrame(repo1, owner, dtos, writes, foreign.id);
    var run := PushRecords(repo1, owner, dtos, writes);
    ReplySkips(repo1, run.repo, owner, store, dtos, run.results, foreign.id);
  }

  lemma ReplySkips(before: Repo, after: Repo, owner: Owner, store: D.LocalState, dtos: seq<RecordDTO>,
                   results: seq<PushResult>, id: Id)
    requires FullyApplied(before, after, owner, dtos, results) && dtos != [] && store.cursor <= before.counter
    requires id in after.records && after.records[id].version <= before.counter && id !in store.records
    requires forall i :: 0 <= i < |dtos| ==> dtos[i].id != id
    ensures var acknowledged := D.Acknowledge(store, 0, results);
      id !in acknowledged.records && !Changed(after, owner, acknowledged.cursor, id)
  {
    AppliedCursorBounds(store.cursor, results, after.counter);
    NotPut(store.records, results, id);
    assert results[0].serverRecord.version > before.counter;
  }

  lemma {:induction false} NotPut(records: Records, results: seq<PushResult>, id: Id)
    requires id !in records && forall i :: 0 <= i < |results| ==> results[i].serverRecord.id != id
    ensures id !in D.PutApplied(records, results)
  {
    if results != [] {
      NotPut(records, results[..|results| - 1], id);
    }
  }

  // ---------------------------------------------------------------- exactly when a write is missed

  /** The guard of the server's compare-and-swap: the record is known and has moved on. */
  predicate Refuses(r: Repo, dto: RecordDTO) {
    dto.id in r.records && r.records[dto.id].version != dto.baseVersion
  }

  /** In a push of distinct records each is applied exactly when the server does not refuse it beforehand. */
  lemma {:induction false} EachIsDecidedBeforehand(r: Repo, owner: Owner, dtos: seq<RecordDTO>, writes: seq<Time>)
    requires |writes| >= |dtos| && DistinctIds(dtos)
    ensures var run := PushRecords(r, owner, dtos, writes);
      && r.counter <= run.repo.counter
      && (forall i :: 0 <= i < |dtos| ==> (run.results[i].status == Applied <==> !Refuses(r, dtos[i])))
      && (forall i :: 0 <= i < |dtos| && run.results[i].status == Applied ==>
            && run.results[i].serverRecord.version > r.counter && run.results[i].serverRecord.id == dtos[i].id
            && Owns(run.repo, owner, dtos[i].id)
            && run.results[i].serverRecord == RecordToDTO(run.repo.records[dtos[i].id]))
  {
    if dtos != [] {
      var n := |dtos| - 1;
      EachIsDecidedBeforehand(r, owner, dtos[..n], writes);
      forall i | 0 <= i < n ensures dtos[..n][i].id != dtos[n].id { assert dtos[..n][i] == dtos[i]; }
      PushFrame(r, owner, dtos[..n], writes, dtos[n].id);
      var before := PushRecords(r, owner, dtos[..n], writes);
      assert Refuses(before.repo, dtos[n]) <==> Refuses(r, dtos[n]);
      forall i | 0 <= i < n ensures Refuses(r, dtos[..n][i]) <==> Refuses(r, dtos[i]) {}
    }
  }

  lemma {:induction false} CursorAfter(cursor: int, earlier: seq<PushResult>, results: seq<PushResult>)
    ensures D.AppliedCursor(cursor, earlier + results) == D.AppliedCursor(D.AppliedCursor(cursor, earlier), results)
  {
    if results == [] {
      assert earlier + results == earlier;
    } else {
      var n := |results| - 1;
      CursorAfter(cursor, earlier, results[..n]);
      assert (earlier + results)[..|earlier| + n] == earlier + results[..n];
    }
  }

  /** The cursor passes the version exactly when an applied result does. */
  lemma {:induction false} CursorPasses(cursor: int, results: seq<PushResult>, version: int)
    requires cursor < version
    ensures D.AppliedCursor(cursor, results) >= version <==>
            exists i :: 0 <= i < |results| && results[i].status == Applied && results[i].serverRecord.version >= version
  {
    if results != [] {
      var n := |results| - 1;
      CursorPasses(cursor, results[..n], version);
      if i :| 0 <= i < n && results[i].status == Applied && results[i].serverRecord.version >= version {
        assert results[..n][i] == results[i];
      }
    }
  }

  lemma {:induction false} PutAfter(records: Records, earlier: seq<PushResult>, results: seq<PushResult>)
    ensures D.PutApplied(records, earlier + results) == D.PutApplied(D.PutApplied(records, earlier), results)
  {
    if results == [] {
      assert earlier + results == earlier;
    } else {
      var n := |results| - 1;
      PutAfter(records, earlier, results[..n]);
      assert (earlier + results)[..|earlier| + n] == earlier + results[..n];
    }
  }

  ghost predicate AllRefused(r: Repo, dtos: seq<RecordDTO>) {
    forall k :: 0 <= k < |dtos| ==> Refuses(r, dtos[k])
  }

  /** Whatever is sent about id is refused. */
  ghost predicate RefusedIfAmong(r: Repo, dtos: seq<RecordDTO>, id: Id) {
    forall k :: 0 <= k < |dtos| && dtos[k].id == id ==> Refuses(r, dtos[k])
  }

  ghost predicate SameAt(r: Repo, after: Repo, id: Id) {
    (id in after.records <==> id in r.records) && (id in r.records ==> after.records[id] == r.records[id])
  }

  ghost predicate HeldAlike(store: D.LocalState, after: D.LocalState, id: Id) {
    && (id in after.records <==> id in store.records)
    && (id in store.records ==> after.records[id] == store.records[id])
  }

  /** A record that is not in the push, or refused in it, stays as it is at the server. */
  lemma {:induction false} RefusedStays(r: Repo, owner: Owner, dtos: seq<RecordDTO>, writes: seq<Time>, id: Id)
    requires |writes| >= |dtos| && id in r.records && RefusedIfAmong(r, dtos, id)
    ensures SameAt(r, PushRecords(r, owner, dtos, writes).repo, id)
  {
    if dtos != [] {
      RefusedStays(r, owner, dtos[..|dtos| - 1], writes, id);
    }
  }

  /** A push leaves versions below the counter and the owner's records the owner's. */
  lemma {:induction false} PushKeepsOwned(r: Repo, owner: Owner, dtos: seq<RecordDTO>, writes: seq<Time>, id: Id)
    requires |writes| >= |dtos| && Owns(r, owner, id) && r.records[id].version <= r.counter
    ensures var after := PushRecords(r, owner, dtos, writes).repo;
      Owns(after, owner, id) && after.records[id].version <= after.counter
  {
    if dtos != [] {
      PushKeepsOwned(r, owner, dtos[..|dtos| - 1], writes, id);
    }
  }

  /** What a chunk, or the rest of one, does to a record that the next pull may list. */
  lemma {:induction false} RestDecides(
    r: Repo, owner: Owner, store: D.LocalState, key: Key, dtos: seq<RecordDTO>, writes: seq<Time>, id: Id)
    requires |writes| >= |dtos| && DistinctIds(dtos)
    requires Owns(r, owner, id) && r.records[id].version <= r.counter
    ensures var run := PushRecords(r, owner, dtos, writes);
      var after := D.Acknowledge(store, key, run.results);
      && (Changed(run.repo, owner, after.cursor, id) <==> Changed(r, owner, store.cursor, id) && AllRefused(r, dtos))
      && (RefusedIfAmong(r, dtos, id) ==> SameAt(r, run.repo, id) && HeldAlike(store, after, id))
  {
    var run := PushRecords(r, owner, dtos, writes);
    EachIsDecidedBeforehand(r, owner, dtos, writes);
    D.CursorOnlyGrows(store.cursor, run.results);
    if RefusedIfAmong(r, dtos, id) {
      RefusedStays(r, owner, dtos, writes, id);
      D.NotTouched(store.records, run.results, id);
      if Changed(r, owner, store.cursor, id) {
        CursorPasses(store.cursor, run.results, r.records[id].version);
        if i :| 0 <= i < |dtos| && !Refuses(r, dtos[i]) {
          assert run.results[i].status == Applied && run.results[i].serverRecord.version >= r.records[id].version;
        }
      }
    } else {
      var i :| 0 <= i < |dtos| && dtos[i].id == id && !Refuses(r, dtos[i]);
      AcceptedIsPassed(store.cursor, run.results, i);
    }
  }

  /** The cursor gets as far as each applied result. */
  lemma {:induction false} AcceptedIsPassed(cursor: int, results: seq<PushResult>, i: nat)
    requires i < |results| && results[i].status == Applied
    ensures D.AppliedCursor(cursor, results) >= results[i].serverRecord.version
  {
    if i < |results| - 1 {
      AcceptedIsPassed(cursor, results[..|results| - 1], i);
    }
  }

  /** Results from before the record was written leave it to be listed. */
  lemma {:induction false} EarlierDoesNotPass(cursor: int, earlier: seq<PushResult>, version: int)
    requires cursor < version
    requires forall i :: 0 <= i < |earlier| && earlier[i].status == Applied ==>
               earlier[i].serverRecord.version < version
    ensures D.AppliedCursor(cursor, earlier) < version
  {
    CursorPasses(cursor, earlier, version);
  }

  /**
   * A device pulled; then somebody wrote its owner's record id (created, changed or deleted it), so that
   * the next pull would list it, whether or not the push has a change of that record as well; then the
   * server came to the rest of the device's chunk, having given earlier versions to what came before. The
   * next pull still lists the record if and only if the server refuses all of that rest. If it accepts but
   * one record, no pull lists the write until the record is written once more. Where it refuses what is
   * sent about id, if anything is, the reply leaves the device's copy as the earlier results made it.
   */
  lemma {:induction false} WriteIsStillListedExactlyWhen(
    r: Repo, owner: Owner, store: D.LocalState, key: Key, earlier: seq<PushResult>, dtos: seq<RecordDTO>,
    writes: seq<Time>, id: Id)
    requires |writes| >= |dtos| && DistinctIds(dtos)
    requires Changed(r, owner, store.cursor, id) && r.records[id].version <= r.counter
    requires forall i :: 0 <= i < |earlier| && earlier[i].status == Applied ==>
               earlier[i].serverRecord.version < r.records[id].version
    ensures var run := PushRecords(r, owner, dtos, writes);
      var after := D.Acknowledge(store, key, earlier + run.results);
      && (Changed(run.repo, owner, after.cursor, id) <==> AllRefused(r, dtos))
      && (RefusedIfAmong(r, dtos, id) ==>
            SameAt(r, run.repo, id) && HeldAlike(D.Acknowledge(store, key, earlier), after, id))
  {
    var run := PushRecords(r, owner, dtos, writes);
    CursorAfter(store.cursor, earlier, run.results);
    PutAfter(store.records, earlier, run.results);
    EarlierDoesNotPass(store.cursor, earlier, r.records[id].version);
    RestDecides(r, owner, D.Acknowledge(store, key, earlier), key, dtos, writes, id);
  }

  // ---------------------------------------------------------------- the chunks that are still to come

  /** A chunk as it is sent, and the server's clock readings as it answers. */
  datatype Request = Request(key: Key, dtos: seq<RecordDTO>, writes: seq<Time>)

  datatype Pushed = Pushed(repo: Repo, store: D.LocalState)

  ghost predicate Timed(requests: seq<Request>) {
    forall i :: 0 <= i < |requests| ==> |requests[i].writes| >= |requests[i].dtos|
  }

  /** The server and the device's store after the chunks were sent and answered in turn. */
  ghost function PushChunks(r: Repo, owner: Owner, store: D.LocalState, requests: seq<Request>): Pushed
    requires Timed(requests)
  {
    if requests == [] then Pushed(r, store)
    else
      var n := |requests| - 1;
      var before := PushChunks(r, owner, store, requests[..n]);
      var run := PushRecords(before.repo, owner, requests[n].dtos, requests[n].writes);
      Pushed(run.repo, D.Acknowledge(before.store, requests[n].key, run.results))
  }

  ghost predicate NotAmong(dtos: seq<RecordDTO>, id: Id) {
    forall k :: 0 <= k < |dtos| ==> dtos[k].id != id
  }

  ghost predicate Apart(dtos: seq<RecordDTO>, others: seq<RecordDTO>) {
    forall k :: 0 <= k < |others| ==> NotAmong(dtos, others[k].id)
  }

  /** No record is sent twice. */
  ghost predicate EachOnce(requests: seq<Request>) {
    && (forall i :: 0 <= i < |requests| ==> DistinctIds(requests[i].dtos))
    && (forall i, j :: 0 <= i < j < |requests| ==> Apart(requests[i].dtos, requests[j].dtos))
  }

  ghost predicate AllChunksRefused(r: Repo, requests: seq<Request>) {
    forall i :: 0 <= i < |requests| ==> AllRefused(r, requests[i].dtos)
  }

  ghost predicate RefusedWhereSent(r: Repo, requests: seq<Request>, id: Id) {
    forall i :: 0 <= i < |requests| ==> RefusedIfAmong(r, requests[i].dtos, id)
  }

  lemma {:induction false} ChunksFrame(r: Repo, owner: Owner, store: D.LocalState, requests: seq<Request>, id: Id)
    requires Timed(requests) && forall i :: 0 <= i < |requests| ==> NotAmong(requests[i].dtos, id)
    ensures SameAt(r, PushChunks(r, owner, store, requests).repo, id)
  {
    if requests != [] {
      var n := |requests| - 1;
      ChunksFrame(r, owner, store, requests[..n], id);
      PushFrame(PushChunks(r, owner, store, requests[..n]).repo, owner, requests[n].dtos, requests[n].writes, id);
    }
  }

  /** Whether the records of a chunk are refused is decided before the chunks that come before it. */
  lemma SameIsRefused(r: Repo, after: Repo, dtos: seq<RecordDTO>, id: Id)
    requires forall k :: 0 <= k < |dtos| ==> SameAt(r, after, dtos[k].id)
    ensures AllRefused(after, dtos) <==> AllRefused(r, dtos)
    ensures RefusedIfAmong(after, dtos, id) <==> RefusedIfAmong(r, dtos, id)
  {
    forall k | 0 <= k < |dtos| ensures Refuses(after, dtos[k]) <==> Refuses(r, dtos[k]) {}
  }

  lemma {:induction false} LastIsRefused(
    r: Repo, owner: Owner, store: D.LocalState, requests: seq<Request>, id: Id)
    requires Timed(requests) && EachOnce(requests) && requests != []
    ensures var n := |requests| - 1;
      var before := PushChunks(r, owner, store, requests[..n]).repo;
      && (AllRefused(before, requests[n].dtos) <==> AllRefused(r, requests[n].dtos))
      && (RefusedIfAmong(before, requests[n].dtos, id) <==> RefusedIfAmong(r, requests[n].dtos, id))
  {
    var n := |requests| - 1;
    var dtos := requests[n].dtos;
    forall k | 0 <= k < |dtos| ensures SameAt(r, PushChunks(r, owner, store, requests[..n]).repo, dtos[k].id) {
      ChunksFrame(r, owner, store, requests[..n], dtos[k].id);
    }
    SameIsRefused(r, PushChunks(r, owner, store, requests[..n]).repo, dtos, id);
  }

  lemma {:induction false} ChunksDecide(r: Repo, owner: Owner, store: D.LocalState, requests: seq<Request>, id: Id)
    requires Timed(requests) && EachOnce(requests)
    requires Owns(r, owner, id) && r.records[id].version <= r.counter
    ensures var after := PushChunks(r, owner, store, requests);
      && Owns(after.repo, owner, id) && after.repo.records[id].version <= after.repo.counter
      && (Changed(after.repo, owner, after.store.cursor, id) <==>
          Changed(r, owner, store.cursor, id) && AllChunksRefused(r, requests))
      && (RefusedWhereSent(r, requests, id) ==> SameAt(r, after.repo, id) && HeldAlike(store, after.store, id))
  {
    if requests != [] {
      var n := |requests| - 1;
      ChunksDecide(r, owner, store, requests[..n], id);
      var before := PushChunks(r, owner, store, requests[..n]);
      PushKeepsOwned(before.repo, owner, requests[n].dtos, requests[n].writes, id);
      RestDecides(before.repo, owner, before.store, requests[n].key, requests[n].dtos, requests[n].writes, id);
      LastIsRefused(r, owner, store, requests, id);
      LastOfAll(r, requests, id);
    }
  }

  lemma LastOfAll(r: Repo, requests: seq<Request>, id: Id)
    requires requests != []
    ensures var n := |requests| - 1;
      && (AllChunksRefused(r, requests) <==> AllChunksRefused(r, requests[..n]) && AllRefused(r, requests[n].dtos))
      && (RefusedWhereSent(r, requests, id) <==>
          RefusedWhereSent(r, requests[..n], id) && RefusedIfAmong(r, requests[n].dtos, id))
  {
  }

  /** Where the chunks come after the rest of one, all is decided when the server comes to that rest. */
  lemma {:induction false} DecidedBeforeRest(
    r: Repo, owner: Owner, dtos: seq<RecordDTO>, writes: seq<Time>, later: seq<Request>, id: Id)
    requires |writes| >= |dtos| && forall i :: 0 <= i < |later| ==> Apart(dtos, later[i].dtos)
    ensures var after := PushRecords(r, owner, dtos, writes).repo;
      && (AllChunksRefused(after, later) <==> AllChunksRefused(r, later))
      && (RefusedWhereSent(after, later, id) <==> RefusedWhereSent(r, later, id))
  {
    var after := PushRecords(r, owner, dtos, writes).repo;
    forall i | 0 <= i < |later|
      ensures AllRefused(after, later[i].dtos) <==> AllRefused(r, later[i].dtos)
      ensures RefusedIfAmong(after, later[i].dtos, id) <==> RefusedIfAmong(r, later[i].dtos, id)
    {
      forall k | 0 <= k < |later[i].dtos| ensures SameAt(r, after, later[i].dtos[k].id) {
        PushFrame(r, owner, dtos, writes, later[i].dtos[k].id);
      }
      SameIsRefused(r, after, later[i].dtos, id);
    }
  }

  /**
   * The same over all that is left of a push: the rest of the chunk that the server was at, and the chunks
   * after it. The next pull still lists what somebody wrote meanwhile if and only if the server refuses
   * every record of every one of them, which is decided when that write is made.
   */
  lemma {:induction false} WriteIsStillListedAfterPushExactlyWhen(
    r: Repo, owner: Owner, store: D.LocalState, key: Key, earlier: seq<PushResult>, dtos: seq<RecordDTO>,
    writes: seq<Time>, later: seq<Request>, id: Id)
    requires |writes| >= |dtos| && DistinctIds(dtos)
    requires Timed(later) && EachOnce(later) && forall i :: 0 <= i < |later| ==> Apart(dtos, later[i].dtos)
    requires Changed(r, owner, store.cursor, id) && r.records[id].version <= r.counter
    requires forall i :: 0 <= i < |earlier| && earlier[i].status == Applied ==>
               earlier[i].serverRecord.version < r.records[id].version
    ensures var run := PushRecords(r, owner, dtos, writes);
      var after := PushChunks(run.repo, owner, D.Acknowledge(store, key, earlier + run.results), later);
      && (Changed(after.repo, owner, after.store.cursor, id) <==> AllRefused(r, dtos) && AllChunksRefused(r, later))
      && (RefusedIfAmong(r, dtos, id) && RefusedWhereSent(r, later, id) ==>
            SameAt(r, after.repo, id) && HeldAlike(D.Acknowledge(store, key, earlier), after.store, id))
  {
    var run := PushRecords(r, owner, dtos, writes);
    PushKeepsOwned(r, owner, dtos, writes, id);
    WriteIsStillListedExactlyWhen(r, owner, store, key, earlier, dtos, writes, id);
    ChunksDecide(run.repo, owner, D.Acknowledge(store, key, earlier + run.results), later, id);
    DecidedBeforeRest(r, owner, dtos, writes, later, id);
  }
}
