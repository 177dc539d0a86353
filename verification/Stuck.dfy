/**
 * Syncs of one device while nobody else writes its owner's records. An iteration of an error-free Sync
 * ends clean if and only if no record was stuck at its pull; a stuck record that the device has under
 * another version than the server stays stuck, through every further Sync and edit; and a record becomes
 * stuck exactly by a push of which the server accepts a part after somebody else wrote the record.
 */
module Stuck {
  import opened Domain
  import opened Repository
  import opened SyncService
  import opened Merge
  import opened Chunks
  import opened Convergence
  import opened MissedWrites
  import D = Device

  /** A dirty record that is not based on the server's version, so that pushes are refused, and which no pull lists. */
  ghost predicate IsStuck(repo: Repo, owner: Owner, store: D.LocalState, id: Id) {
    && IsDirty(store.records, id) && Owns(repo, owner, id)
    && repo.records[id].version <= store.cursor
    && store.records[id].dto.baseVersion != repo.records[id].version
  }

  ghost predicate SomeStuck(repo: Repo, owner: Owner, store: D.LocalState) {
    exists id :: IsStuck(repo, owner, store, id)
  }

  // ---------------------------------------------------------------- a device and the server

  /** No id of the store is another owner's. */
  ghost predicate OwnIds(repo: Repo, owner: Owner, records: Records) {
    forall id :: id in records && id in repo.records ==> repo.records[id].owner == owner
  }

  ghost predicate OwnersStay(repo: Repo, after: Repo) {
    forall id :: id in repo.records ==> id in after.records && after.records[id].owner == repo.records[id].owner
  }

  /** Any number of writes, none of them of the owner's records. */
  ghost predicate OthersWrote(repo: Repo, after: Repo, owner: Owner) {
    && WellFormed(after) && repo.counter <= after.counter && OwnersStay(repo, after)
    && (forall id :: Owns(repo, owner, id) || Owns(after, owner, id) ==> SameAt(repo, after, id))
  }

  /** How one record of a push was dealt with. */
  ghost predicate Dealt(repo: Repo, after: Repo, owner: Owner, dto: RecordDTO, result: PushResult) {
    && result.serverRecord.version <= after.counter
    && (result.status == Applied <==> !Refuses(repo, dto))
    && if Refuses(repo, dto) then SameAt(repo, after, dto.id)
       else Owns(after, owner, dto.id) && result.serverRecord == RecordToDTO(after.records[dto.id])
  }

  /**
   * The push was answered, one record after the other, and of the owner's records nothing else was written
   * meanwhile.
   */
  ghost predicate Handled(repo: Repo, after: Repo, owner: Owner, dtos: seq<RecordDTO>, results: seq<PushResult>) {
    && WellFormed(after) && repo.counter <= after.counter && OwnersStay(repo, after)
    && |results| == |dtos|
    && (forall i :: 0 <= i < |dtos| ==> Dealt(repo, after, owner, dtos[i], results[i]))
    && (forall id :: (Owns(repo, owner, id) || Owns(after, owner, id)) && NotAmong(dtos, id) ==>
          SameAt(repo, after, id))
  }

  /** The server's records, and the only device of its owner that has any written. */
  datatype Solo = Solo(repo: Repo, device: D.Device)

  datatype Act =
    // an event of the device; when it is the reply to a push, after is what the server has by then
    | Act(e: D.Event, after: Repo)
    // others have records of their own written
    | Others(after: Repo)

  /** Pulls and pushes are answered from the present records, calls do not fail, and edits are made at rest. */
  ghost predicate Enabled(s: Solo, owner: Owner, a: Act) {
    match a
    case Act(e, after) => D.Enabled(s.device, e) && EventEnabled(s, owner, e, after)
    case Others(after) => OthersWrote(s.repo, after, owner) && OwnIds(after, owner, s.device.store.records)
  }

  ghost predicate EventEnabled(s: Solo, owner: Owner, e: D.Event, after: Repo)
    requires D.Enabled(s.device, e)
  {
    match e
    case Edited(edit) => s.device.phase.Idle? && !edit.Import? && (edit.Create? ==> edit.id !in s.repo.records)
    case PullDelivered(jobs, _) =>
      && IsListing(s.repo, owner, s.device.store.cursor, D.IncomingOf(jobs))
      && CopyIds(s.device.store.records, jobs) !! s.repo.records.Keys
    case PushDelivered(results) =>
      && Handled(s.repo, after, owner, D.Outstanding(s.device).value.1, results)
      && OwnIds(after, owner, s.device.store.records)
    case Failed => false
    case _ => true
  }

  ghost function Next(s: Solo, owner: Owner, a: Act): Solo
    requires Enabled(s, owner, a)
  {
    match a
    case Act(e, after) => Solo(if e.PushDelivered? then after else s.repo, D.Next(s.device, e))
    case Others(after) => s.(repo := after)
  }

  ghost predicate IsRun(s: Solo, owner: Owner, acts: seq<Act>)
    decreases |acts|, 0
  {
    acts == [] ||
    (IsRun(s, owner, acts[..|acts| - 1]) && Enabled(Run(s, owner, acts[..|acts| - 1]), owner, acts[|acts| - 1]))
  }

  ghost function Run(s: Solo, owner: Owner, acts: seq<Act>): Solo
    requires IsRun(s, owner, acts)
    decreases |acts|, 1
  {
    if acts == [] then s else Next(Run(s, owner, acts[..|acts| - 1]), owner, acts[|acts| - 1])
  }

  // ---------------------------------------------------------------- one pull, one push

  /** A pull leaves the same records stuck. */
  lemma {:induction false} PullKeepsStuck(repo: Repo, owner: Owner, store: D.LocalState, jobs: seq<Job>, id: Id)
    requires Keyed(store.records) && store.cursor <= repo.counter
    requires forall x :: x in repo.records ==> repo.records[x].id == x && repo.records[x].version <= repo.counter
    requires IsListing(repo, owner, store.cursor, D.IncomingOf(jobs))
    requires DistinctIncoming(jobs) && FreshCopies(store.records, jobs) &&
               CopyIds(store.records, jobs) !! repo.records.Keys
    ensures var after := D.LocalState(MergeAll(store.records, jobs), D.PulledCursor(store.cursor, jobs), store.pending);
      && (IsStuck(repo, owner, after, id) <==> IsStuck(repo, owner, store, id))
      && (IsStuck(repo, owner, store, id) ==> after.records[id] == store.records[id])
  {
    MergeAllIsMerge(store.records, jobs);
    PulledCursorOf(repo, owner, store.cursor, jobs);
    PulledIsChanged(repo, owner, store.cursor, jobs, id);
    if id in IncomingIds(jobs) {
      var j :| j in jobs && j.incoming.id == id;
      assert MergeAll(store.records, jobs)[id] == Kept(store.records, j.incoming);
    }
  }

  /** A dirty record that is not stuck after a pull is one that the server accepts. */
  lemma NotStuckIsAccepted(repo: Repo, owner: Owner, store: D.LocalState, id: Id)
    requires IsDirty(store.records, id) && store.records[id].dto.id == id
    requires id in repo.records ==> repo.records[id].owner == owner && repo.records[id].version <= store.cursor
    ensures Refuses(repo, store.records[id].dto) <==> IsStuck(repo, owner, store, id)
  {
  }

  /** What others write leaves the same records stuck, and what is coherent so. */
  lemma OthersKeep(repo: Repo, after: Repo, owner: Owner, store: D.LocalState)
    requires OthersWrote(repo, after, owner)
    ensures forall id :: IsStuck(after, owner, store, id) <==> IsStuck(repo, owner, store, id)
    ensures Coherent(after, owner, store) <==> Coherent(repo, owner, store)
    ensures AllPassed(after, owner, store.cursor) <==> AllPassed(repo, owner, store.cursor)
  {
    forall id ensures Owns(after, owner, id) <==> Owns(repo, owner, id) {}
  }

  /** Applied results are about the records of the push. */
  lemma AppliedIsSent(repo: Repo, after: Repo, owner: Owner, dtos: seq<RecordDTO>, results: seq<PushResult>, i: nat)
    requires Handled(repo, after, owner, dtos, results) && i < |results| && results[i].status == Applied
    ensures !Refuses(repo, dtos[i]) && results[i].serverRecord.id == dtos[i].id
  {
    assert Dealt(repo, after, owner, dtos[i], results[i]);
  }

  lemma NotSentIsHeldAlike(repo: Repo, after: Repo, owner: Owner, store: D.LocalState, key: Key,
                           dtos: seq<RecordDTO>, results: seq<PushResult>, id: Id)
    requires Handled(repo, after, owner, dtos, results) && RefusedIfAmong(repo, dtos, id)
    ensures HeldAlike(store, D.Acknowledge(store, key, results), id)
  {
    forall i | 0 <= i < |results| && results[i].status == Applied ensures results[i].serverRecord.id != id {
      AppliedIsSent(repo, after, owner, dtos, results, i);
    }
    D.NotTouched(store.records, results, id);
  }

  /** The server refuses a stuck record, and the reply leaves it stuck. */
  lemma {:induction false} PushKeepsStuck(
    repo: Repo, after: Repo, owner: Owner, store: D.LocalState, key: Key, dtos: seq<RecordDTO>,
    results: seq<PushResult>, id: Id)
    requires Handled(repo, after, owner, dtos, results)
    requires IsStuck(repo, owner, store, id)
    requires forall i :: 0 <= i < |dtos| && dtos[i].id == id ==> dtos[i] == store.records[id].dto
    ensures var acknowledged := D.Acknowledge(store, key, results);
      && IsStuck(after, owner, acknowledged, id) && acknowledged.records[id] == store.records[id]
      && after.records[id] == repo.records[id]
  {
    NotSentIsHeldAlike(repo, after, owner, store, key, dtos, results, id);
    D.CursorOnlyGrows(store.cursor, results);
    if i :| 0 <= i < |dtos| && dtos[i].id == id {
      assert Dealt(repo, after, owner, dtos[i], results[i]);
    } else {
      assert NotAmong(dtos, id);
    }
  }

  // ---------------------------------------------------------------- how a record becomes stuck

  /** What is sent about id is what the store has of it. */
  ghost predicate SentAsHeld(records: Records, dtos: seq<RecordDTO>, id: Id) {
    forall k :: 0 <= k < |dtos| && dtos[k].id == id ==> id in records && dtos[k] == records[id].dto
  }

  /** A record that the server accepts in one of the chunks is clean after all of them. */
  lemma {:induction false} AcceptedEndsClean(
    r: Repo, owner: Owner, store: D.LocalState, requests: seq<Request>, i: nat, k: nat)
    requires Timed(requests) && EachOnce(requests)
    requires i < |requests| && k < |requests[i].dtos| && !Refuses(r, requests[i].dtos[k])
    ensures var id := requests[i].dtos[k].id;
      var after := PushChunks(r, owner, store, requests).store; id in after.records && !after.records[id].dirty
  {
    var n := |requests| - 1;
    var id := requests[i].dtos[k].id;
    var last := requests[n];
    var before := PushChunks(r, owner, store, requests[..n]);
    EachIsDecidedBeforehand(before.repo, owner, last.dtos, last.writes);
    var results := PushRecords(before.repo, owner, last.dtos, last.writes).results;
    if i < n {
      AcceptedEndsClean(r, owner, store, requests[..n], i, k);
      assert Apart(requests[i].dtos, last.dtos);
      D.NotTouched(before.store.records, results, id);
    } else {
      forall j | 0 <= j < n ensures NotAmong(requests[..n][j].dtos, id) { assert Apart(requests[j].dtos, last.dtos); }
      ChunksFrame(r, owner, store, requests[..n], id);
      assert Refuses(before.repo, last.dtos[k]) <==> Refuses(r, last.dtos[k]);
      D.PutWhereApplied(before.store.records, results, k);
    }
  }

  /** The same for the rest of a chunk, followed by further chunks. */
  lemma {:induction false} AcceptedFirstEndsClean(
    r: Repo, owner: Owner, store: D.LocalState, key: Key, earlier: seq<PushResult>, dtos: seq<RecordDTO>,
    writes: seq<Time>, later: seq<Request>, k: nat)
    requires |writes| >= |dtos| && DistinctIds(dtos)
    requires Timed(later) && EachOnce(later) && forall i :: 0 <= i < |later| ==> Apart(dtos, later[i].dtos)
    requires k < |dtos| && !Refuses(r, dtos[k])
    requires Owns(r, owner, dtos[k].id) && r.records[dtos[k].id].version <= r.counter
    ensures var run := PushRecords(r, owner, dtos, writes);
      var after := PushChunks(run.repo, owner, D.Acknowledge(store, key, earlier + run.results), later).store;
      dtos[k].id in after.records && !after.records[dtos[k].id].dirty
  {
    var run := PushRecords(r, owner, dtos, writes);
    var id := dtos[k].id;
    EachIsDecidedBeforehand(r, owner, dtos, writes);
    PutAfter(store.records, earlier, run.results);
    D.PutWhereApplied(D.PutApplied(store.records, earlier), run.results, k);
    PushKeepsOwned(r, owner, dtos, writes, id);
    forall i | 0 <= i < |later| ensures RefusedIfAmong(run.repo, later[i].dtos, id) {
      assert Apart(dtos, later[i].dtos);
    }
    ChunksDecide(run.repo, owner, D.Acknowledge(store, key, earlier + run.results), later, id);
  }

  /**
   * Somebody wrote the record id after the device's pull, while the push was under way. When the rest of the
   * chunk that the server was at and the chunks after it are answered, the record is stuck if and only if
   * the device has a change of it by then that the server refuses, and the server accepts any other record
   * of all that rest: then the cursor has passed the foreign write, which no pull will list. It needs no
   * failed call.
   */
  lemma {:induction false} BecomesStuckExactlyWhen(
    r: Repo, owner: Owner, store: D.LocalState, key: Key, earlier: seq<PushResult>, dtos: seq<RecordDTO>,
    writes: seq<Time>, later: seq<Request>, id: Id)
    requires |writes| >= |dtos| && DistinctIds(dtos)
    requires Timed(later) && EachOnce(later) && forall i :: 0 <= i < |later| ==> Apart(dtos, later[i].dtos)
    requires Changed(r, owner, store.cursor, id) && r.records[id].version <= r.counter
    requires forall i :: 0 <= i < |earlier| && earlier[i].status == Applied ==>
               earlier[i].serverRecord.version < r.records[id].version
    requires Keyed(D.PutApplied(store.records, earlier)) && SentAsHeld(D.PutApplied(store.records, earlier), dtos, id)
    requires forall i :: 0 <= i < |later| ==> SentAsHeld(D.PutApplied(store.records, earlier), later[i].dtos, id)
    ensures var now := D.PutApplied(store.records, earlier);
      var run := PushRecords(r, owner, dtos, writes);
      var after := PushChunks(run.repo, owner, D.Acknowledge(store, key, earlier + run.results), later);
      IsStuck(after.repo, owner, after.store, id) <==>
        && IsDirty(now, id) && Refuses(r, now[id].dto)
        && !(AllRefused(r, dtos) && AllChunksRefused(r, later))
  {
    var run := PushRecords(r, owner, dtos, writes);
    WriteIsStillListedAfterPushExactlyWhen(r, owner, store, key, earlier, dtos, writes, later, id);
    if !RefusedIfAmong(r, dtos, id) {
      var k :| 0 <= k < |dtos| && dtos[k].id == id && !Refuses(r, dtos[k]);
      AcceptedFirstEndsClean(r, owner, store, key, earlier, dtos, writes, later, k);
    } else if !RefusedWhereSent(r, later, id) {
      var i :| 0 <= i < |later| && !RefusedIfAmong(r, later[i].dtos, id);
      var k :| 0 <= k < |later[i].dtos| && later[i].dtos[k].id == id && !Refuses(r, later[i].dtos[k]);
      PushFrame(r, owner, dtos, writes, id) by { assert Apart(dtos, later[i].dtos); }
      AcceptedEndsClean(run.repo, owner, D.Acknowledge(store, key, earlier + run.results), later, i, k);
    } else {
      PushKeepsOwned(r, owner, dtos, writes, id);
      ChunksDecide(run.repo, owner, D.Acknowledge(store, key, earlier + run.results), later, id);
    }
  }

  // ---------------------------------------------------------------- stuck for good

  /** The record is in no waiting or coming chunk but as it is in the store. */
  ghost predicate ChunkedAsStored(d: D.Device, id: Id) {
    id in d.store.records ==>
      match d.phase
      case Pushing(_, chunks, _) => forall r :: r in Flatten(chunks) && r.dto.id == id ==> r == d.store.records[id]
      case PushWait(_, _, chunk, chunks, _) =>
        forall r :: r in chunk + Flatten(chunks) && r.dto.id == id ==> r == d.store.records[id]
      case _ => true
  }

  /** Nothing is pending but the chunk that is waiting, and records, versions and owners are in order. */
  ghost predicate InOrder(s: Solo, owner: Owner) {
    && WellFormed(s.repo) && s.device.store.cursor <= s.repo.counter
    && OwnIds(s.repo, owner, s.device.store.records)
    && D.Disciplined(s.device) && !s.device.phase.ReplayWait? && D.ChunksDistinct(s.device)
    && (s.device.phase.Idle? ==> s.device.store.pending == [])
    && (s.device.phase.Replaying? ==> s.device.store.pending == [])
  }

  lemma ActKeepsInOrder(s: Solo, owner: Owner, a: Act)
    requires InOrder(s, owner) && Enabled(s, owner, a)
    ensures InOrder(Next(s, owner, a), owner)
  {
    if a.Act? {
      D.StepKeepsDisciplined(s.device, a.e);
      match a.e
      case Advanced(_) =>
        if s.device.phase.Pushing? && s.device.phase.chunks != [] {
          assert Flatten(s.device.phase.chunks) == s.device.phase.chunks[0] + Flatten(s.device.phase.chunks[1..]);
        }
      case PullDelivered(jobs, dirty) => PullKeepsInOrder(s, owner, jobs, dirty);
      case PushDelivered(results) => ReplyKeepsInOrder(s, owner, results, a.after);
      case _ =>
    }
  }

  lemma PullKeepsInOrder(s: Solo, owner: Owner, jobs: seq<Job>, dirty: seq<StoredRecord>)
    requires InOrder(s, owner) && Enabled(s, owner, Act(D.PullDelivered(jobs, dirty), s.repo))
    requires D.Disciplined(D.Next(s.device, D.PullDelivered(jobs, dirty)))
    ensures InOrder(Solo(s.repo, D.Next(s.device, D.PullDelivered(jobs, dirty))), owner)
  {
    PulledCursorOf(s.repo, owner, s.device.store.cursor, jobs);
    ChunksFlatten(dirty, EffectiveSize(s.device.config.chunkSize));
    PullKeepsOwnIds(s.repo, owner, s.device.store, jobs);
  }

  lemma PullKeepsOwnIds(repo: Repo, owner: Owner, store: D.LocalState, jobs: seq<Job>)
    requires Keyed(store.records) && OwnIds(repo, owner, store.records)
    requires IsListing(repo, owner, store.cursor, D.IncomingOf(jobs))
    requires DistinctIncoming(jobs) && FreshCopies(store.records, jobs) &&
               CopyIds(store.records, jobs) !! repo.records.Keys
    ensures OwnIds(repo, owner, MergeAll(store.records, jobs))
  {
    MergeAllIsMerge(store.records, jobs);
    forall id | id in MergeAll(store.records, jobs) && id in repo.records ensures repo.records[id].owner == owner {
      PulledIsChanged(repo, owner, store.cursor, jobs, id);
    }
  }

  lemma ReplyKeepsInOrder(s: Solo, owner: Owner, results: seq<PushResult>, after: Repo)
    requires InOrder(s, owner) && Enabled(s, owner, Act(D.PushDelivered(results), after))
    requires D.Disciplined(D.Next(s.device, D.PushDelivered(results)))
    ensures InOrder(Solo(after, D.Next(s.device, D.PushDelivered(results))), owner)
  {
    var dtos := D.Outstanding(s.device).value.1;
    forall i | 0 <= i < |results| ensures results[i].serverRecord.version <= after.counter {
      assert Dealt(s.repo, after, owner, dtos[i], results[i]);
    }
    AppliedCursorBounds(s.device.store.cursor, results, after.counter);
    assert s.device.store.pending == [s.device.store.pending[0]];
    D.WithoutOnly(s.device.store.pending[0]);
    D.RestIsDistinct(s.device.phase.chunk, Flatten(s.device.phase.chunks));
    ReplyKeepsOwnIds(s.repo, after, owner, s.device.store.records, dtos, results);
  }

  lemma ReplyKeepsOwnIds(repo: Repo, after: Repo, owner: Owner, records: Records, dtos: seq<RecordDTO>,
                         results: seq<PushResult>)
    requires Handled(repo, after, owner, dtos, results) && OwnIds(after, owner, records)
    ensures OwnIds(after, owner, D.PutApplied(records, results))
  {
    forall id | id in D.PutApplied(records, results) && id in after.records ensures after.records[id].owner == owner {
      if i :| 0 <= i < |results| && results[i].status == Applied && results[i].serverRecord.id == id {
        AppliedIsSent(repo, after, owner, dtos, results, i);
        assert Dealt(repo, after, owner, dtos[i], results[i]);
      } else {
        D.NotTouched(records, results, id);
      }
    }
  }

  /** Editing does not help either when the record's own version is not the server's. */
  ghost predicate StuckForGood(s: Solo, owner: Owner, id: Id) {
    && IsStuck(s.repo, owner, s.device.store, id)
    && s.device.store.records[id].dto.version != s.repo.records[id].version
    && ChunkedAsStored(s.device, id)
  }

  lemma ActKeepsStuck(s: Solo, owner: Owner, a: Act, id: Id)
    requires InOrder(s, owner) && Enabled(s, owner, a) && StuckForGood(s, owner, id)
    ensures StuckForGood(Next(s, owner, a), owner, id)
  {
    if a.Act? {
      match a.e
      case Advanced(_) =>
        if s.device.phase.Pushing? && s.device.phase.chunks != [] {
          assert Flatten(s.device.phase.chunks) == s.device.phase.chunks[0] + Flatten(s.device.phase.chunks[1..]);
        }
      case PullDelivered(jobs, dirty) =>
        PullKeepsStuck(s.repo, owner, s.device.store, jobs, id);
        ChunksFlatten(dirty, EffectiveSize(s.device.config.chunkSize));
      case PushDelivered(results) => ReplyKeepsStuck(s, owner, results, a.after, id);
      case _ =>
    } else {
      OthersKeep(s.repo, a.after, owner, s.device.store);
    }
  }

  lemma ReplyKeepsStuck(s: Solo, owner: Owner, results: seq<PushResult>, after: Repo, id: Id)
    requires InOrder(s, owner) && Enabled(s, owner, Act(D.PushDelivered(results), after)) && StuckForGood(s, owner, id)
    ensures StuckForGood(Solo(after, D.Next(s.device, D.PushDelivered(results))), owner, id)
  {
    var chunk, rest := s.device.phase.chunk, Flatten(s.device.phase.chunks);
    forall i | 0 <= i < |chunk| && chunk[i].dto.id == id ensures chunk[i] == s.device.store.records[id] {
      assert chunk[i] in chunk + rest;
    }
    PushKeepsStuck(s.repo, after, owner, s.device.store, s.device.phase.key, D.DtosOf(chunk), results, id);
    forall r | r in rest && r.dto.id == id ensures r == s.device.store.records[id] {
      assert r in chunk + rest;
    }
  }

  /** In every run without failing calls, and without foreign writes of the owner's records, it stays so. */
  lemma {:induction false} StuckStaysStuck(s: Solo, owner: Owner, acts: seq<Act>, id: Id)
    requires InOrder(s, owner) && IsRun(s, owner, acts) && StuckForGood(s, owner, id)
    ensures InOrder(Run(s, owner, acts), owner) && StuckForGood(Run(s, owner, acts), owner, id)
  {
    if acts != [] {
      StuckStaysStuck(s, owner, acts[..|acts| - 1], id);
      ActKeepsInOrder(Run(s, owner, acts[..|acts| - 1]), owner, acts[|acts| - 1]);
      ActKeepsStuck(Run(s, owner, acts[..|acts| - 1]), owner, acts[|acts| - 1], id);
    }
  }

  // ---------------------------------------------------------------- edits of a stuck record

  /** The edit bases the record with this id on the version. */
  predicate Rebases(records: Records, edit: D.Edit, id: Id, version: int) {
    match edit
    case Create(_, _, _, _) => false
    case Update(edited, _, _) => edited == id && id in records && records[id].dto.version == version
    case Remove(edited, _) => edited == id && id in records && records[id].dto.version == version
    case Import(dtos, _) => D.LastAbout(dtos, id).Some? && D.LastAbout(dtos, id).value.version == version
  }

  /**
   * An edit frees a stuck record if and only if the version it finds is the server's: the version that the
   * device has of the record, or the version in the last import of it. Then the next Sync pushes it, as
   * ConvergesExactlyWhen says; no other edit helps.
   */
  lemma {:induction false} EditFreesExactlyWhen(repo: Repo, owner: Owner, store: D.LocalState, edit: D.Edit, id: Id)
    requires Keyed(store.records) && IsStuck(repo, owner, store, id)
    requires edit.Create? ==> edit.id !in store.records
    ensures var after := store.(records := D.ApplyEdit(store.records, edit));
      && IsDirty(after.records, id)
      && (!IsStuck(repo, owner, after, id) <==> Rebases(store.records, edit, id, repo.records[id].version))
  {
    if edit.Import? {
      D.ImportedIsLast(store.records, edit.dtos, edit.at, id);
    }
  }

  // ---------------------------------------------------------------- when a Sync converges

  /** What is clean is as the server has it, and the cursor has passed no record that is missing. */
  ghost predicate Coherent(repo: Repo, owner: Owner, store: D.LocalState) {
    && CleanIsOwned(repo, owner, store.records)
    && (forall id :: Owns(repo, owner, id) && repo.records[id].version <= store.cursor ==>
          && id in store.records
          && (!store.records[id].dirty ==> store.records[id] == Clean(RecordToDTO(repo.records[id]))))
  }

  /** A Sync can start here, or one that has come to a pull goes on from here, in whichever iteration. */
  ghost predicate CanStart(s: Solo, owner: Owner) {
    InOrder(s, owner) && (s.device.phase.Idle? || s.device.phase.Pulling?)
  }

  /** The iteration that the Sync comes to or is in. */
  function IterationAt(phase: D.Phase): nat {
    if phase.Pulling? then phase.iteration else 0
  }

  ghost predicate AllPassed(repo: Repo, owner: Owner, cursor: int) {
    forall id :: Owns(repo, owner, id) ==> repo.records[id].version <= cursor
  }

  ghost predicate InList(list: seq<StoredRecord>, id: Id) {
    exists i :: 0 <= i < |list| && list[i].dto.id == id
  }

  /** The list is of dirty records as they are in the store; every other dirty record is stuck. */
  ghost predicate RestIsStuck(repo: Repo, owner: Owner, store: D.LocalState, list: seq<StoredRecord>) {
    && (forall i :: 0 <= i < |list| ==>
         IsDirty(store.records, list[i].dto.id) && store.records[list[i].dto.id] == list[i])
    && (forall id :: IsDirty(store.records, id) ==> InList(list, id) || IsStuck(repo, owner, store, id))
  }

  ghost predicate SameStuck(s: Solo, t: Solo, owner: Owner) {
    forall id :: IsStuck(t.repo, owner, t.device.store, id) <==> IsStuck(s.repo, owner, s.device.store, id)
  }

  /** In the middle of the push: the list is still to be answered; conflicts were the stuck records before it. */
  ghost predicate Sorted(s: Solo, t: Solo, owner: Owner, list: seq<StoredRecord>, conflicts: bool) {
    && OwnIds(t.repo, owner, t.device.store.records) && AllPassed(t.repo, owner, t.device.store.cursor)
    && RestIsStuck(t.repo, owner, t.device.store, list)
    && SameStuck(s, t, owner)
    && (conflicts <==> exists id :: IsStuck(t.repo, owner, t.device.store, id) && !InList(list, id))
    && (Coherent(s.repo, owner, s.device.store) ==> Coherent(t.repo, owner, t.device.store))
  }

  /** Before the pull the device has not changed. */
  ghost predicate Unpulled(s: Solo, t: Solo, owner: Owner) {
    && t.device.store == s.device.store && SameStuck(s, t, owner)
    && (Coherent(s.repo, owner, s.device.store) ==> Coherent(t.repo, owner, t.device.store))
  }

  /** How the state t of a Sync in iteration n, or past it, relates to the state s before the pull of it. */
  ghost predicate InPass(s: Solo, t: Solo, owner: Owner, n: nat) {
    match t.device.phase
    case Replaying(_) => n == 0 && Unpulled(s, t, owner)
    case Pulling(i) => i >= n && (i == n ==> Unpulled(s, t, owner))
    case Pushing(i, chunks, conflicts) => i >= n && (i == n ==> Sorted(s, t, owner, Flatten(chunks), conflicts))
    case PushWait(i, _, chunk, chunks, conflicts) =>
      i >= n && (i == n ==> Sorted(s, t, owner, chunk + Flatten(chunks), conflicts))
    case _ => true
  }

  lemma PullKeepsCoherent(repo: Repo, owner: Owner, store: D.LocalState, jobs: seq<Job>)
    requires Keyed(store.records) && WellFormed(repo) && store.cursor <= repo.counter && Coherent(repo, owner, store)
    requires IsListing(repo, owner, store.cursor, D.IncomingOf(jobs))
    requires DistinctIncoming(jobs) && FreshCopies(store.records, jobs) &&
               CopyIds(store.records, jobs) !! repo.records.Keys
    ensures Coherent(repo, owner, D.LocalState(MergeAll(store.records, jobs), D.PulledCursor(store.cursor, jobs),
                                         store.pending))
  {
    var after := MergeAll(store.records, jobs);
    MergeAllIsMerge(store.records, jobs);
    forall id | Owns(repo, owner, id)
      ensures id in after && (!after[id].dirty ==> after[id] == Clean(RecordToDTO(repo.records[id])))
    {
      PulledIsChanged(repo, owner, store.cursor, jobs, id);
      if id in IncomingIds(jobs) {
        var j :| j in jobs && j.incoming.id == id;
        assert after[id] == Kept(store.records, j.incoming);
      }
    }
    forall id | id in CopyIds(store.records, jobs) ensures after[id].dirty {
      var j :| j in jobs && Forks(store.records, j.incoming) && j.copy.id == id;
      assert after[id] == CopyMade(store.records, j);
    }
    forall id | id in after && !after[id].dirty ensures Owns(repo, owner, id) {
      PulledIsChanged(repo, owner, store.cursor, jobs, id);
    }
  }

  /** A pull: every dirty record is listed, and the stuck ones are the same as before. */
  lemma PullSorts(s: Solo, t: Solo, owner: Owner, jobs: seq<Job>, dirty: seq<StoredRecord>, t': Solo)
    requires InOrder(t, owner) && Unpulled(s, t, owner)
    requires t.device.phase.Pulling? && Enabled(t, owner, Act(D.PullDelivered(jobs, dirty), t.repo))
    requires t' == Solo(t.repo, D.Next(t.device, D.PullDelivered(jobs, dirty)))
    ensures Sorted(s, t', owner, dirty, false)
  {
    var store := t.device.store;
    MergeAllIsMerge(store.records, jobs);
    PulledCursorOf(t.repo, owner, store.cursor, jobs);
    forall id ensures IsStuck(t.repo, owner, t'.device.store, id) <==> IsStuck(s.repo, owner, s.device.store, id) {
      PullKeepsStuck(t.repo, owner, store, jobs, id);
    }
    PullKeepsOwnIds(t.repo, owner, store, jobs);
    if Coherent(t.repo, owner, store) {
      PullKeepsCoherent(t.repo, owner, store, jobs);
    }
  }

  /** A refused record stays as it was on both sides; any other is written, and clean on the device. */
  ghost predicate OneAnswered(
    repo: Repo, owner: Owner, store: D.LocalState, dto: RecordDTO, repo': Repo, store': D.LocalState)
  {
    && dto.id in store.records && dto.id in store'.records
    && if Refuses(repo, dto) then
         dto.id in repo.records && dto.id in repo'.records
         && store'.records[dto.id] == store.records[dto.id] && repo'.records[dto.id] == repo.records[dto.id]
       else
         Owns(repo', owner, dto.id) && repo'.records[dto.id].version <= store'.cursor
         && store'.records[dto.id] == Clean(RecordToDTO(repo'.records[dto.id]))
  }

  /** The device keeps its copy, and the server the owner's record, if it has one. */
  ghost predicate SameBoth(repo: Repo, owner: Owner, store: D.LocalState, repo': Repo, store': D.LocalState, id: Id) {
    && HeldAlike(store, store', id)
    && (Owns(repo, owner, id) || Owns(repo', owner, id) ==> SameAt(repo, repo', id))
  }

  /** What the reply to a chunk does to each record, from what the server had before. */
  ghost predicate ChunkAnswered(
    repo: Repo, owner: Owner, store: D.LocalState, chunk: seq<StoredRecord>, repo': Repo, store': D.LocalState,
    conflict: bool)
  {
    && store'.cursor >= store.cursor && OwnIds(repo', owner, store'.records)
    && (forall i :: 0 <= i < |chunk| ==> OneAnswered(repo, owner, store, chunk[i].dto, repo', store'))
    && (forall id :: !InList(chunk, id) ==> SameBoth(repo, owner, store, repo', store', id))
    && (conflict <==> exists i :: 0 <= i < |chunk| && Refuses(repo, chunk[i].dto))
  }

  lemma ReplyAnswersOne(repo: Repo, after: Repo, owner: Owner, store: D.LocalState, key: Key,
                        dtos: seq<RecordDTO>, results: seq<PushResult>, i: nat)
    requires Handled(repo, after, owner, dtos, results) && DistinctIds(dtos) && i < |dtos|
    requires dtos[i].id in store.records
    ensures OneAnswered(repo, owner, store, dtos[i], after, D.Acknowledge(store, key, results))
  {
    assert Dealt(repo, after, owner, dtos[i], results[i]);
    if Refuses(repo, dtos[i]) {
      NotSentIsHeldAlike(repo, after, owner, store, key, dtos, results, dtos[i].id);
    } else {
      forall k | i < k < |results| && results[k].status == Applied
        ensures results[k].serverRecord.id != results[i].serverRecord.id
      {
        AppliedIsSent(repo, after, owner, dtos, results, k);
      }
      AcceptedIsPassed(store.cursor, results, i);
      D.PutWhereApplied(store.records, results, i);
    }
  }

  lemma ReplyFrame(repo: Repo, after: Repo, owner: Owner, store: D.LocalState, key: Key,
                   chunk: seq<StoredRecord>, results: seq<PushResult>, id: Id)
    requires Handled(repo, after, owner, D.DtosOf(chunk), results) && !InList(chunk, id)
    ensures SameBoth(repo, owner, store, after, D.Acknowledge(store, key, results), id)
  {
    var dtos := D.DtosOf(chunk);
    forall i | 0 <= i < |dtos| ensures dtos[i].id != id { assert dtos[i] == chunk[i].dto; }
    assert NotAmong(dtos, id);
    NotSentIsHeldAlike(repo, after, owner, store, key, dtos, results, id);
  }

  lemma ReplyAnswersChunk(repo: Repo, after: Repo, owner: Owner, store: D.LocalState, key: Key,
                          chunk: seq<StoredRecord>, results: seq<PushResult>)
    requires Handled(repo, after, owner, D.DtosOf(chunk), results) && DistinctIds(D.DtosOf(chunk))
    requires OwnIds(after, owner, store.records)
    requires forall i :: 0 <= i < |chunk| ==> chunk[i].dto.id in store.records
    ensures ChunkAnswered(repo, owner, store, chunk, after, D.Acknowledge(store, key, results), D.HasConflict(results))
  {
    var dtos := D.DtosOf(chunk);
    var store' := D.Acknowledge(store, key, results);
    D.CursorOnlyGrows(store.cursor, results);
    ReplyKeepsOwnIds(repo, after, owner, store.records, dtos, results);
    forall i | 0 <= i < |chunk|
      ensures OneAnswered(repo, owner, store, chunk[i].dto, after, store')
      ensures results[i].status == Applied <==> !Refuses(repo, dtos[i])
    {
      assert dtos[i] == chunk[i].dto;
      assert Dealt(repo, after, owner, dtos[i], results[i]);
      ReplyAnswersOne(repo, after, owner, store, key, dtos, results, i);
    }
    forall id | !InList(chunk, id) ensures SameBoth(repo, owner, store, after, store', id) {
      ReplyFrame(repo, after, owner, store, key, chunk, results, id);
    }
    ConflictMeansRefused(repo, chunk, results);
  }

  lemma ConflictMeansRefused(repo: Repo, chunk: seq<StoredRecord>, results: seq<PushResult>)
    requires |results| == |chunk|
    requires forall i :: 0 <= i < |chunk| ==> (results[i].status == Applied <==> !Refuses(repo, D.DtosOf(chunk)[i]))
    ensures D.HasConflict(results) <==> exists i :: 0 <= i < |chunk| && Refuses(repo, chunk[i].dto)
  {
    if D.HasConflict(results) {
      var r :| r in results && r.status == Conflict;
      var i :| 0 <= i < |results| && results[i] == r;
      assert Refuses(repo, D.DtosOf(chunk)[i]);
    }
    if i :| 0 <= i < |chunk| && Refuses(repo, chunk[i].dto) {
      assert Refuses(repo, D.DtosOf(chunk)[i]);
      assert results[i] in results;
    }
  }

  /** What holds of the lists before the reply to a chunk. */
  ghost predicate BeforeReply(
    repo: Repo, owner: Owner, store: D.LocalState, chunk: seq<StoredRecord>, rest: seq<StoredRecord>) {
    && OwnIds(repo, owner, store.records) && AllPassed(repo, owner, store.cursor)
    && RestIsStuck(repo, owner, store, chunk + rest)
    && DistinctIds(D.DtosOf(chunk + rest))
  }

  lemma InWhole(chunk: seq<StoredRecord>, rest: seq<StoredRecord>, id: Id)
    ensures InList(chunk + rest, id) <==> InList(chunk, id) || InList(rest, id)
  {
    var all := chunk + rest;
    if i :| 0 <= i < |chunk| && chunk[i].dto.id == id { assert all[i].dto.id == id; }
    if j :| 0 <= j < |rest| && rest[j].dto.id == id { assert all[|chunk| + j].dto.id == id; }
    if k :| 0 <= k < |all| && all[k].dto.id == id {
      if k < |chunk| { assert chunk[k].dto.id == id; } else { assert rest[k - |chunk|].dto.id == id; }
    }
  }

  /** In the chunk the stuck records are those that are refused. */
  lemma StuckInChunk(
    repo: Repo, owner: Owner, store: D.LocalState, chunk: seq<StoredRecord>, rest: seq<StoredRecord>, i: nat)
    requires BeforeReply(repo, owner, store, chunk, rest) && i < |chunk|
    ensures IsDirty(store.records, chunk[i].dto.id) && store.records[chunk[i].dto.id] == chunk[i]
    ensures Refuses(repo, chunk[i].dto) <==> IsStuck(repo, owner, store, chunk[i].dto.id)
  {
    assert (chunk + rest)[i] == chunk[i];
    NotStuckIsAccepted(repo, owner, store, chunk[i].dto.id);
  }

  /** A reply leaves the same records stuck. */
  lemma ReplySameStuck(repo: Repo, owner: Owner, store: D.LocalState, chunk: seq<StoredRecord>, rest: seq<StoredRecord>,
                       repo': Repo, store': D.LocalState, conflict: bool, id: Id)
    requires BeforeReply(repo, owner, store, chunk, rest)
    requires ChunkAnswered(repo, owner, store, chunk, repo', store', conflict)
    ensures IsStuck(repo', owner, store', id) <==> IsStuck(repo, owner, store, id)
    ensures InList(chunk, id) && IsDirty(store'.records, id) ==> IsStuck(repo, owner, store, id)
  {
    if i :| 0 <= i < |chunk| && chunk[i].dto.id == id {
      StuckInChunk(repo, owner, store, chunk, rest, i);
    } else {
      assert !InList(chunk, id);
    }
  }

  lemma ReplyKeepsRest(repo: Repo, owner: Owner, store: D.LocalState, chunk: seq<StoredRecord>, rest: seq<StoredRecord>,
                       repo': Repo, store': D.LocalState, conflict: bool)
    requires BeforeReply(repo, owner, store, chunk, rest)
    requires ChunkAnswered(repo, owner, store, chunk, repo', store', conflict)
    ensures RestIsStuck(repo', owner, store', rest)
    ensures OwnIds(repo', owner, store'.records) && AllPassed(repo', owner, store'.cursor)
  {
    D.RestIsDistinct(chunk, rest);
    forall j | 0 <= j < |rest|
      ensures IsDirty(store'.records, rest[j].dto.id) && store'.records[rest[j].dto.id] == rest[j]
    {
      assert (chunk + rest)[|chunk| + j] == rest[j];
      assert !InList(chunk, rest[j].dto.id);
    }
    forall id | IsDirty(store'.records, id) ensures InList(rest, id) || IsStuck(repo', owner, store', id) {
      ReplySameStuck(repo, owner, store, chunk, rest, repo', store', conflict, id);
      InWhole(chunk, rest, id);
    }
    forall id | id in store'.records && id in repo'.records ensures repo'.records[id].owner == owner {
      if i :| 0 <= i < |chunk| && chunk[i].dto.id == id {} else { assert !InList(chunk, id); }
    }
    forall id | Owns(repo', owner, id) ensures repo'.records[id].version <= store'.cursor {
      if i :| 0 <= i < |chunk| && chunk[i].dto.id == id {
        if Refuses(repo, chunk[i].dto) { assert Owns(repo, owner, id); }
      } else {
        assert !InList(chunk, id);
        assert Owns(repo, owner, id);
      }
    }
  }

  lemma ReplyKeepsCoherent(
    repo: Repo, owner: Owner, store: D.LocalState, chunk: seq<StoredRecord>, rest: seq<StoredRecord>,
    repo': Repo, store': D.LocalState, conflict: bool)
    requires BeforeReply(repo, owner, store, chunk, rest)
    requires ChunkAnswered(repo, owner, store, chunk, repo', store', conflict)
    requires Coherent(repo, owner, store)
    ensures Coherent(repo', owner, store')
  {
    forall id | id in store'.records && !store'.records[id].dirty ensures Owns(repo', owner, id) {
      assert InList(chunk, id) || SameBoth(repo, owner, store, repo', store', id);
    }
    forall id | Owns(repo', owner, id) && repo'.records[id].version <= store'.cursor
      ensures id in store'.records
      ensures !store'.records[id].dirty ==> store'.records[id] == Clean(RecordToDTO(repo'.records[id]))
    {
      assert InList(chunk, id) || SameBoth(repo, owner, store, repo', store', id);
      assert !InList(chunk, id) ==> Owns(repo, owner, id);
    }
  }

  /** The reply to a chunk: its stuck records are the conflicts. */
  lemma ReplySorts(s: Solo, t: Solo, owner: Owner, chunk: seq<StoredRecord>, rest: seq<StoredRecord>, conflicts: bool,
                   t': Solo, conflict: bool)
    requires Sorted(s, t, owner, chunk + rest, conflicts) && DistinctIds(D.DtosOf(chunk + rest))
    requires ChunkAnswered(t.repo, owner, t.device.store, chunk, t'.repo, t'.device.store, conflict)
    ensures Sorted(s, t', owner, rest, conflicts || conflict)
  {
    var repo, store, repo', store' := t.repo, t.device.store, t'.repo, t'.device.store;
    ReplyKeepsRest(repo, owner, store, chunk, rest, repo', store', conflict);
    forall id ensures IsStuck(repo', owner, store', id) <==> IsStuck(repo, owner, store, id) {
      ReplySameStuck(repo, owner, store, chunk, rest, repo', store', conflict, id);
    }
    ReplyConflicts(t, owner, chunk, rest, conflicts, conflict);
    if Coherent(s.repo, owner, s.device.store) {
      ReplyKeepsCoherent(repo, owner, store, chunk, rest, repo', store', conflict);
    }
  }

  lemma ReplyConflicts(
    t: Solo, owner: Owner, chunk: seq<StoredRecord>, rest: seq<StoredRecord>, conflicts: bool, conflict: bool)
    requires BeforeReply(t.repo, owner, t.device.store, chunk, rest)
    requires conflicts <==> exists id :: IsStuck(t.repo, owner, t.device.store, id) && !InList(chunk + rest, id)
    requires conflict <==> exists i :: 0 <= i < |chunk| && Refuses(t.repo, chunk[i].dto)
    ensures conflicts || conflict <==> exists id :: IsStuck(t.repo, owner, t.device.store, id) && !InList(rest, id)
  {
    D.RestIsDistinct(chunk, rest);
    if id :| IsStuck(t.repo, owner, t.device.store, id) && !InList(chunk + rest, id) {
      InWhole(chunk, rest, id);
      assert !InList(rest, id);
    }
    if i :| 0 <= i < |chunk| && Refuses(t.repo, chunk[i].dto) {
      StuckInChunk(t.repo, owner, t.device.store, chunk, rest, i);
      assert !InList(rest, chunk[i].dto.id);
    }
    if id :| IsStuck(t.repo, owner, t.device.store, id) && !InList(rest, id) {
      InWhole(chunk, rest, id);
      if i :| 0 <= i < |chunk| && chunk[i].dto.id == id {
        StuckInChunk(t.repo, owner, t.device.store, chunk, rest, i);
      } else {
        assert !InList(chunk, id);
      }
    }
  }

  lemma ActKeepsPass(s: Solo, t: Solo, owner: Owner, a: Act, n: nat)
    requires InOrder(t, owner) && Enabled(t, owner, a) && !t.device.phase.Idle? && InPass(s, t, owner, n)
    ensures InPass(s, Next(t, owner, a), owner, n)
    ensures a.Act? && a.e.PullDelivered? && t.device.phase.iteration == n ==>
              Sorted(s, Next(t, owner, a), owner, a.e.dirty, false)
  {
    if a.Others? {
      OthersKeepPass(s, t, owner, a.after, n);
    } else {
      match a.e
      case Advanced(key) => AdvanceKeepsPass(s, t, owner, key, n);
      case PullDelivered(jobs, dirty) =>
        if t.device.phase.iteration == n {
          PullSorts(s, t, owner, jobs, dirty, Next(t, owner, a));
          ChunksFlatten(dirty, EffectiveSize(t.device.config.chunkSize));
        }
      case PushDelivered(results) =>
        if t.device.phase.iteration == n {
          ReplyKeepsPass(s, t, owner, results, a.after);
        }
      case _ =>
    }
  }

  lemma OthersKeepPass(s: Solo, t: Solo, owner: Owner, after: Repo, n: nat)
    requires OthersWrote(t.repo, after, owner) && OwnIds(after, owner, t.device.store.records)
    requires InPass(s, t, owner, n)
    ensures InPass(s, t.(repo := after), owner, n)
  {
    OthersKeep(t.repo, after, owner, t.device.store);
  }

  lemma AdvanceKeepsPass(s: Solo, t: Solo, owner: Owner, key: Key, n: nat)
    requires InOrder(t, owner) && D.Enabled(t.device, D.Advanced(key)) && InPass(s, t, owner, n)
    ensures InPass(s, Solo(t.repo, D.Next(t.device, D.Advanced(key))), owner, n)
  {
    if t.device.phase.Pushing? && t.device.phase.chunks != [] && t.device.phase.iteration == n {
      var chunks := t.device.phase.chunks;
      assert Flatten(chunks) == chunks[0] + Flatten(chunks[1..]);
      PendingDoesNotMatter(s, t, Solo(t.repo, D.Next(t.device, D.Advanced(key))), owner, Flatten(chunks),
                           t.device.phase.conflicts);
    }
  }

  lemma ReplyKeepsPass(s: Solo, t: Solo, owner: Owner, results: seq<PushResult>, after: Repo)
    requires InOrder(t, owner) && Enabled(t, owner, Act(D.PushDelivered(results), after)) && t.device.phase.PushWait?
    requires Sorted(s, t, owner, t.device.phase.chunk + Flatten(t.device.phase.chunks), t.device.phase.conflicts)
    ensures Sorted(s, Solo(after, D.Next(t.device, D.PushDelivered(results))), owner, Flatten(t.device.phase.chunks),
                   t.device.phase.conflicts || D.HasConflict(results))
  {
    var chunk, rest := t.device.phase.chunk, Flatten(t.device.phase.chunks);
    var t' := Solo(after, D.Next(t.device, D.PushDelivered(results)));
    D.RestIsDistinct(chunk, rest);
    assert forall i :: 0 <= i < |chunk| ==> (chunk + rest)[i] == chunk[i];
    ReplyAnswersChunk(t.repo, after, owner, t.device.store, t.device.phase.key, chunk, results);
    ReplySorts(s, t, owner, chunk, rest, t.device.phase.conflicts, t', D.HasConflict(results));
  }

  lemma PendingDoesNotMatter(s: Solo, t: Solo, t': Solo, owner: Owner, list: seq<StoredRecord>, conflicts: bool)
    requires Sorted(s, t, owner, list, conflicts) && t'.repo == t.repo
    requires t'.device.store.records == t.device.store.records && t'.device.store.cursor == t.device.store.cursor
    ensures Sorted(s, t', owner, list, conflicts)
  {
  }

  /**
   * The acts are those of a Sync, from its start or from the pull that it has come to, and it has not come
   * to rest before the last of them.
   */
  ghost predicate IsSync(s: Solo, owner: Owner, acts: seq<Act>)
    requires IsRun(s, owner, acts)
  {
    acts != [] &&
    var n := |acts| - 1;
    if n == 0 then s.device.phase.Idle? ==> acts[0].Act? && acts[0].e == D.Started
    else IsSync(s, owner, acts[..n]) && !Run(s, owner, acts[..n]).device.phase.Idle?
  }

  lemma {:induction false} SyncInPass(s: Solo, owner: Owner, acts: seq<Act>)
    requires CanStart(s, owner) && IsRun(s, owner, acts) && IsSync(s, owner, acts)
    ensures InOrder(Run(s, owner, acts), owner)
    ensures InPass(s, Run(s, owner, acts), owner, IterationAt(s.device.phase))
  {
    var n := |acts| - 1;
    if n == 0 {
      assert acts[..0] == [];
      assert Run(s, owner, acts[..0]) == s;
    } else {
      SyncInPass(s, owner, acts[..n]);
    }
    var before := Run(s, owner, acts[..n]);
    ActKeepsInOrder(before, owner, acts[n]);
    if !before.device.phase.Idle? {
      ActKeepsPass(s, before, owner, acts[n], IterationAt(s.device.phase));
    }
  }

  /** The iteration is over: nothing was dirty after the pull, or every chunk is answered. */
  ghost predicate IterationOver(s: Solo, owner: Owner, acts: seq<Act>)
    requires IsRun(s, owner, acts) && acts != []
  {
    var i := IterationAt(s.device.phase);
    var before := Run(s, owner, acts[..|acts| - 1]).device.phase;
    var t := Run(s, owner, acts).device.phase;
    || (before.Pulling? && before.iteration == i && t.Idle?)
    || (t.Pushing? && t.iteration == i && t.chunks == [])
  }

  ghost predicate NothingIsDirty(records: Records) {
    forall id :: !IsDirty(records, id)
  }

  /**
   * A Sync of a device with nothing pending, from its start or from the pull of any of its iterations, with
   * whatever store and whatever happened before; from then on no call fails and nobody else has the owner's
   * records written. After this iteration nothing is dirty, and no conflict was reported in it, if and only
   * if no record was stuck when it began. If moreover the clean records were those of the server, the device
   * then holds exactly the server's records.
   */
  lemma {:induction false} ConvergesExactlyWhen(s: Solo, owner: Owner, acts: seq<Act>)
    requires CanStart(s, owner) && IsRun(s, owner, acts) && IsSync(s, owner, acts) && IterationOver(s, owner, acts)
    ensures var t := Run(s, owner, acts);
      && (NothingIsDirty(t.device.store.records) <==> !SomeStuck(s.repo, owner, s.device.store))
      && (t.device.phase.Pushing? ==> (t.device.phase.conflicts <==> SomeStuck(s.repo, owner, s.device.store)))
      && (!SomeStuck(s.repo, owner, s.device.store) && Coherent(s.repo, owner, s.device.store) ==>
            Matches(t.repo, owner, t.device.store.records))
  {
    var n := |acts| - 1;
    var t := Run(s, owner, acts);
    SyncInPass(s, owner, acts);
    if t.device.phase.Idle? {
      BeforeTheLast(s, owner, acts);
      ActKeepsPass(s, Run(s, owner, acts[..n]), owner, acts[n], IterationAt(s.device.phase));
      assert acts[n].Act? && acts[n].e.dirty == [];
      SortedToTheEnd(s, t, owner, false);
    } else {
      SortedToTheEnd(s, t, owner, t.device.phase.conflicts);
    }
  }

  lemma {:induction false} BeforeTheLast(s: Solo, owner: Owner, acts: seq<Act>)
    requires CanStart(s, owner) && IsRun(s, owner, acts) && IsSync(s, owner, acts)
    ensures var before := Run(s, owner, acts[..|acts| - 1]);
      InOrder(before, owner) && (!before.device.phase.Idle? ==> InPass(s, before, owner, IterationAt(s.device.phase)))
  {
    if |acts| == 1 {
      assert acts[..0] == [];
    } else {
      SyncInPass(s, owner, acts[..|acts| - 1]);
    }
  }

  lemma SortedToTheEnd(s: Solo, t: Solo, owner: Owner, conflicts: bool)
    requires Sorted(s, t, owner, [], conflicts)
    ensures NothingIsDirty(t.device.store.records) <==> !SomeStuck(s.repo, owner, s.device.store)
    ensures conflicts <==> SomeStuck(s.repo, owner, s.device.store)
    ensures !SomeStuck(s.repo, owner, s.device.store) && Coherent(s.repo, owner, s.device.store) ==>
              Matches(t.repo, owner, t.device.store.records)
  {
    assert forall id :: !InList([], id);
    if id :| IsStuck(s.repo, owner, s.device.store, id) {
      assert IsStuck(t.repo, owner, t.device.store, id);
      assert IsDirty(t.device.store.records, id);
    }
    if id :| IsDirty(t.device.store.records, id) {
      assert IsStuck(t.repo, owner, t.device.store, id);
      assert IsStuck(s.repo, owner, s.device.store, id);
    }
    if NothingIsDirty(t.device.store.records) && Coherent(s.repo, owner, s.device.store) {
      CleanAndCoherent(t.repo, owner, t.device.store);
    }
  }

  lemma CleanAndCoherent(repo: Repo, owner: Owner, store: D.LocalState)
    requires NothingIsDirty(store.records) && Coherent(repo, owner, store) && AllPassed(repo, owner, store.cursor)
    ensures Matches(repo, owner, store.records)
  {
    forall id | id in store.records ensures Owns(repo, owner, id) {
      assert !IsDirty(store.records, id);
    }
    forall id | Owns(repo, owner, id)
      ensures id in store.records && store.records[id] == Clean(RecordToDTO(repo.records[id]))
    {
      assert !IsDirty(store.records, id);
    }
  }
}
