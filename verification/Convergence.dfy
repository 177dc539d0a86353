/**
 * Convergence: in every run in which calls do not fail and nobody else writes an owner's records while
 * one of the owner's devices is busy with a Sync, each Sync ends in its first iteration, without a
 * conflict and without a dirty record left, and the device then holds exactly the server's records. A
 * request may be processed any number of times, at any time.
 */
module Convergence {
  import opened Domain
  import opened Repository
  import opened Idempotency
  import opened SyncService
  import opened Merge
  import opened Chunks
  import opened Protocol
  import D = Device
  import T = Tombstones

  // ---------------------------------------------------------------- quiet runs

  ghost predicate Busy(s: System, owner: Owner) {
    exists d :: d in s.nodes && s.nodes[d].owner == owner && !s.nodes[d].device.phase.Idle?
  }

  /** A device waits for the reply to the message. */
  ghost predicate Awaited(s: System, m: Msg) {
    exists d :: d in s.nodes && m in Sends(s.nodes[d])
  }

  /**
   * The REST interface leaves the records of busy owners alone. Requests are processed again at will, but
   * as long as a device waits for the answer no two handlers work on the request at once, and the answer
   * is not forgotten.
   */
  ghost predicate QuietServe(s: System, op: ServerOp) {
    match op
    case LookUpOp(_, msg, at) =>
      Awaited(s, msg) ==>
        Unhandled(s.server, KeyOf(msg)) && (KeyOf(msg) in s.server.cache ==> Hit(s.server.cache, KeyOf(msg), at))
    case WriteOp(rec, _, _) => !Busy(s, rec.owner)
    case RemoveOp(_, owner, _) => !Busy(s, owner)
    case ExpireOp(at) =>
      forall m :: m in s.sent && Awaited(s, m) && KeyOf(m) in s.server.cache ==> Hit(s.server.cache, KeyOf(m), at)
    case _ => true
  }

  ghost predicate Quiet(s: System, step: Step) {
    match step
    case Local(dev, e) =>
      && dev in s.nodes
      && (e.Edited? ==> !e.edit.Import? && s.nodes[dev].device.phase.Idle?)
      && (e.Started? ==> !Busy(s, s.nodes[dev].owner))
      && !e.Failed?
    case Serve(op, _) => QuietServe(s, op)
    case _ => true
  }

  ghost predicate QuietRun(s: System, steps: seq<Step>)
    requires IsRun(s, steps)
  {
    steps != [] ==>
      var n := |steps| - 1;
      QuietRun(s, steps[..n]) && Quiet(Run(s, steps[..n]), steps[n])
  }

  // ---------------------------------------------------------------- how a store relates to the server

  ghost predicate Owns(repo: Repo, owner: Owner, id: Id) {
    id in repo.records && repo.records[id].owner == owner
  }

  /** The device's records are the server's records of its owner, no more and no less. */
  ghost predicate Matches(repo: Repo, owner: Owner, records: Records) {
    && (forall id :: id in records <==> Owns(repo, owner, id))
    && (forall id :: id in records ==> records[id] == Clean(RecordToDTO(repo.records[id])))
  }

  /** At id the device is where the server is; a dirty record is based on the server's version. */
  ghost predicate UpToDate(repo: Repo, records: Records, id: Id)
    requires id in repo.records
  {
    && id in records
    && if records[id].dirty then records[id].dto.baseVersion == repo.records[id].version
       else records[id] == Clean(RecordToDTO(repo.records[id]))
  }

  ghost predicate CleanIsOwned(repo: Repo, owner: Owner, records: Records) {
    forall id :: id in records && !records[id].dirty ==> Owns(repo, owner, id)
  }

  /** Between Syncs: up to date with every server record that the cursor has passed. */
  ghost predicate Current(repo: Repo, owner: Owner, store: D.LocalState) {
    && store.cursor <= repo.counter && store.pending == []
    && CleanIsOwned(repo, owner, store.records)
    && (forall id :: Owns(repo, owner, id) && repo.records[id].version <= store.cursor ==>
          && UpToDate(repo, store.records, id)
          && store.records[id].dto.version == repo.records[id].version)
  }

  /** After a pull: up to date with every server record. */
  ghost predicate CaughtUp(repo: Repo, owner: Owner, store: D.LocalState) {
    && store.cursor <= repo.counter
    && CleanIsOwned(repo, owner, store.records)
    && (forall id :: Owns(repo, owner, id) ==>
          repo.records[id].version <= store.cursor && UpToDate(repo, store.records, id))
  }

  /** The record has been applied with this result, and the server still has it so. */
  ghost predicate AppliedAs(repo: Repo, owner: Owner, dto: RecordDTO, result: PushResult) {
    && result.status == Applied
    && Owns(repo, owner, dto.id)
    && repo.records[dto.id].id == dto.id
    && repo.records[dto.id].version <= repo.counter
    && result.serverRecord == RecordToDTO(repo.records[dto.id])
    && Spent(repo, dto)
  }

  /** Apart from the first n records of the chunk the device is up to date with the server. */
  ghost predicate RestUpToDate(repo: Repo, owner: Owner, store: D.LocalState, chunk: seq<StoredRecord>, n: nat)
    requires n <= |chunk|
  {
    forall id :: Owns(repo, owner, id) && (forall i :: 0 <= i < n ==> chunk[i].dto.id != id) ==>
      repo.records[id].version <= store.cursor && UpToDate(repo, store.records, id)
  }

  /** The first records of the chunk have been applied, each with its result; the rest is up to date. */
  ghost predicate Progress(
    repo: Repo, owner: Owner, store: D.LocalState, chunk: seq<StoredRecord>, results: seq<PushResult>)
  {
    && store.cursor <= repo.counter
    && CleanIsOwned(repo, owner, store.records)
    && |results| <= |chunk|
    && (forall i :: 0 <= i < |results| ==> AppliedAs(repo, owner, chunk[i].dto, results[i]))
    && RestUpToDate(repo, owner, store, chunk, |results|)
  }

  // ---------------------------------------------------------------- the invariant

  /** How far the server is with the chunk that the device waits for: not begun, at work, or done. */
  ghost predicate Underway(
    server: Server, owner: Owner, store: D.LocalState, msg: Msg, chunk: seq<StoredRecord>, mail: Option<Mail>)
  {
    if KeyOf(msg) in server.cache then
      var results := server.cache[KeyOf(msg)].results;
      && Unhandled(server, KeyOf(msg))
      && |results| == |chunk| && Progress(server.repo, owner, store, chunk, results)
      && (mail.None? || mail == Some(PushMail(results)))
    else
      && mail.None?
      && (Unhandled(server, KeyOf(msg)) ==> Progress(server.repo, owner, store, chunk, []))
      && (forall h :: h in server.handlers && KeyOf(server.handlers[h].msg) == KeyOf(msg) ==>
            && server.handlers[h].msg == msg && Progress(server.repo, owner, store, chunk, server.handlers[h].results)
            && forall h' :: h' in server.handlers && KeyOf(server.handlers[h'].msg) == KeyOf(msg) ==> h' == h)
  }

  /** What holds of a node, phase by phase. Iterations other than the first and conflicts do not occur. */
  ghost predicate NodeInv(server: Server, node: Node) {
    var store := node.device.store;
    && Keyed(store.records)
    && node.device.config.maxIterations >= 1
    && match node.device.phase
       case Idle => node.mail.None? && Current(server.repo, node.owner, store)
       case Replaying(rest) => rest == [] && node.mail.None? && Current(server.repo, node.owner, store)
       case ReplayWait(_, _, _) => false
       case Pulling(i) =>
         && i == 0 && Current(server.repo, node.owner, store)
         && (node.mail.Some? ==>
               && node.mail.value.PullMail?
               && IsListing(server.repo, node.owner, store.cursor, node.mail.value.dtos))
       case Pushing(i, chunks, conflicts) =>
         && i == 0 && !conflicts && node.mail.None? && store.pending == []
         && CaughtUp(server.repo, node.owner, store)
         && D.ListsDirty(store.records, Flatten(chunks))
       case PushWait(i, key, chunk, chunks, conflicts) =>
         && i == 0 && !conflicts
         && store.pending == [PendingBatch(key, D.IdsOf(chunk))]
         && D.ListsDirty(store.records, chunk + Flatten(chunks))
         && Underway(server, node.owner, store, Msg(node.owner, key, D.DtosOf(chunk)), chunk, node.mail)
  }

  ghost predicate Registered(s: System, node: Node) {
    forall id :: id in node.device.store.records ==> id in s.registry && s.registry[id] == node.owner
  }

  ghost predicate RepoRegistered(s: System) {
    forall id :: id in s.server.repo.records ==>
      && s.server.repo.records[id].id == id
      && s.server.repo.records[id].version <= s.server.repo.counter
      && id in s.registry && s.registry[id] == s.server.repo.records[id].owner
  }

  ghost predicate OneBusy(s: System) {
    forall d, d' | d in s.nodes && d' in s.nodes && d != d' && s.nodes[d].owner == s.nodes[d'].owner ::
      s.nodes[d].device.phase.Idle? || s.nodes[d'].device.phase.Idle?
  }

  ghost predicate NodeOk(s: System, node: Node) {
    && NodeInv(s.server, node)
    && Registered(s, node)
    && Sends(node) <= s.sent
  }

  ghost predicate NodesOk(s: System) {
    && OneBusy(s)
    && (forall d :: d in s.nodes ==> NodeOk(s, s.nodes[d]))
  }

  /** The server has dealt with the message: no upsert of its records can succeed any more. */
  ghost predicate Done(repo: Repo, m: Msg) {
    forall i :: 0 <= i < |m.dtos| ==> Spent(repo, m.dtos[i])
  }

  /** A key belongs to one message, and a message that nobody waits for is done. */
  ghost predicate MessagesOk(s: System) {
    && (forall m :: m in s.sent ==> m.key in s.keys)
    && (forall m, m' | m in s.sent && m' in s.sent && m.key == m'.key :: m == m')
    && (forall m :: m in s.sent ==> Awaited(s, m) || Done(s.server.repo, m))
    && (forall k :: k in s.server.cache ==> k.1 in s.keys)
    && (forall h :: h in s.server.handlers ==> s.server.handlers[h].msg in s.sent)
  }

  /** No record was sent with a base version that the server has not reached. */
  ghost predicate BasesKnown(s: System) {
    forall m, i :: m in s.sent && 0 <= i < |m.dtos| ==> m.dtos[i].baseVersion <= s.server.repo.counter
  }

  ghost predicate Inv(s: System) {
    RepoRegistered(s) && NodesOk(s) && MessagesOk(s)
  }

  // ---------------------------------------------------------------- writes at the server

  /** repo' is repo after writes by the given owner only. */
  ghost predicate GrewBy(repo: Repo, repo': Repo, owner: Owner) {
    && repo.counter <= repo'.counter
    && (forall id :: id in repo.records ==> id in repo'.records && repo'.records[id].owner == repo.records[id].owner)
    && (forall id :: id in repo'.records ==>
          || (id in repo.records && repo'.records[id] == repo.records[id])
          || (repo'.records[id].owner == owner && repo.counter < repo'.records[id].version <= repo'.counter))
  }

  lemma CurrentAfterGrowth(repo: Repo, repo': Repo, writer: Owner, owner: Owner, store: D.LocalState)
    requires GrewBy(repo, repo', writer) && Current(repo, owner, store)
    ensures Current(repo', owner, store)
  {
  }

  lemma IdleAfterGrowth(server: Server, server': Server, writer: Owner, node: Node)
    requires GrewBy(server.repo, server'.repo, writer) && NodeInv(server, node) && node.device.phase.Idle?
    ensures NodeInv(server', node)
  {
  }

  lemma ListingAfterGrowth(repo: Repo, repo': Repo, writer: Owner, owner: Owner, since: int, dtos: seq<RecordDTO>)
    requires GrewBy(repo, repo', writer) && writer != owner && IsListing(repo, owner, since, dtos)
    ensures IsListing(repo', owner, since, dtos)
  {
    forall id ensures Changed(repo', owner, since, id) <==> Changed(repo, owner, since, id) {}
    forall i | 0 <= i < |dtos| ensures dtos[i] == RecordToDTO(repo'.records[dtos[i].id]) {
      assert Changed(repo, owner, since, dtos[i].id);
    }
  }

  lemma CaughtUpAfterGrowth(repo: Repo, repo': Repo, writer: Owner, owner: Owner, store: D.LocalState)
    requires GrewBy(repo, repo', writer) && writer != owner && CaughtUp(repo, owner, store)
    ensures CaughtUp(repo', owner, store)
  {
  }

  lemma ProgressAfterGrowth(repo: Repo, repo': Repo, writer: Owner, owner: Owner, store: D.LocalState,
                            chunk: seq<StoredRecord>, results: seq<PushResult>)
    requires GrewBy(repo, repo', writer) && writer != owner && Progress(repo, owner, store, chunk, results)
    ensures Progress(repo', owner, store, chunk, results)
  {
  }

  /** Cache and handlers are the same where the key is concerned. */
  ghost predicate SameFor(server: Server, server': Server, k: (Owner, Key)) {
    && (k in server'.cache <==> k in server.cache)
    && (k in server.cache ==> server'.cache[k] == server.cache[k])
    && (forall h :: h in server.handlers && KeyOf(server.handlers[h].msg) == k ==>
          h in server'.handlers && server'.handlers[h] == server.handlers[h])
    && (forall h :: h in server'.handlers && KeyOf(server'.handlers[h].msg) == k ==>
          h in server.handlers && server'.handlers[h] == server.handlers[h])
  }

  lemma {:induction false} UnderwayAfterGrowth(
    server: Server, server': Server, writer: Owner, owner: Owner, store: D.LocalState,
    msg: Msg, chunk: seq<StoredRecord>, mail: Option<Mail>)
    requires GrewBy(server.repo, server'.repo, writer) && writer != owner && msg.owner == owner
    requires SameFor(server, server', KeyOf(msg)) && Underway(server, owner, store, msg, chunk, mail)
    ensures Underway(server', owner, store, msg, chunk, mail)
  {
    assert Unhandled(server', KeyOf(msg)) <==> Unhandled(server, KeyOf(msg));
    forall results | Progress(server.repo, owner, store, chunk, results)
      ensures Progress(server'.repo, owner, store, chunk, results)
    {
      ProgressAfterGrowth(server.repo, server'.repo, writer, owner, store, chunk, results);
    }
  }

  /** A node of another owner does not notice. */
  lemma OtherOwnerAfterGrowth(server: Server, server': Server, writer: Owner, node: Node)
    requires GrewBy(server.repo, server'.repo, writer) && writer != node.owner
    requires forall m :: m in Sends(node) ==> SameFor(server, server', KeyOf(m))
    requires NodeInv(server, node)
    ensures NodeInv(server', node)
  {
    var store := node.device.store;
    match node.device.phase
    case Pulling(_) =>
      CurrentAfterGrowth(server.repo, server'.repo, writer, node.owner, store);
      if node.mail.Some? {
        ListingAfterGrowth(server.repo, server'.repo, writer, node.owner, store.cursor, node.mail.value.dtos);
      }
    case Pushing(_, _, _) =>
      CaughtUpAfterGrowth(server.repo, server'.repo, writer, node.owner, store);
    case PushWait(_, key, chunk, _, _) =>
      var msg := Msg(node.owner, key, D.DtosOf(chunk));
      assert msg in Sends(node);
      UnderwayAfterGrowth(server, server', writer, node.owner, store, msg, chunk, node.mail);
    case _ =>
      CurrentAfterGrowth(server.repo, server'.repo, writer, node.owner, store);
  }

  // ---------------------------------------------------------------- steps of a device

  lemma {:induction false} PulledCursorBounds(cursor: int, jobs: seq<Job>, bound: int)
    requires cursor <= bound && forall i :: 0 <= i < |jobs| ==> jobs[i].incoming.version <= bound
    ensures cursor <= D.PulledCursor(cursor, jobs) <= bound
    ensures forall i :: 0 <= i < |jobs| ==> jobs[i].incoming.version <= D.PulledCursor(cursor, jobs)
  {
    if jobs != [] {
      PulledCursorBounds(cursor, jobs[..|jobs| - 1], bound);
    }
  }

  lemma {:induction false} AppliedCursorBounds(cursor: int, results: seq<PushResult>, bound: int)
    requires cursor <= bound && forall i :: 0 <= i < |results| ==> results[i].serverRecord.version <= bound
    ensures cursor <= D.AppliedCursor(cursor, results) <= bound
    ensures forall i :: 0 <= i < |results| && results[i].status == Applied ==>
              results[i].serverRecord.version <= D.AppliedCursor(cursor, results)
  {
    if results != [] {
      AppliedCursorBounds(cursor, results[..|results| - 1], bound);
    }
  }

  lemma PulledIsChanged(repo: Repo, owner: Owner, since: int, jobs: seq<Job>, id: Id)
    requires IsListing(repo, owner, since, D.IncomingOf(jobs))
    ensures id in IncomingIds(jobs) <==> Changed(repo, owner, since, id)
    ensures forall j :: j in jobs && j.incoming.id == id ==>
              Owns(repo, owner, id) && j.incoming == RecordToDTO(repo.records[id])
  {
  }

  lemma PulledCursorOf(repo: Repo, owner: Owner, cursor: int, jobs: seq<Job>)
    requires cursor <= repo.counter
    requires forall id :: id in repo.records ==> repo.records[id].version <= repo.counter
    requires IsListing(repo, owner, cursor, D.IncomingOf(jobs))
    ensures cursor <= D.PulledCursor(cursor, jobs) <= repo.counter
    ensures forall id :: Owns(repo, owner, id) ==> repo.records[id].version <= D.PulledCursor(cursor, jobs)
  {
    var dtos := D.IncomingOf(jobs);
    forall i | 0 <= i < |jobs| ensures jobs[i].incoming.version <= repo.counter {
      assert Changed(repo, owner, cursor, dtos[i].id);
    }
    PulledCursorBounds(cursor, jobs, repo.counter);
    forall id | Owns(repo, owner, id) ensures repo.records[id].version <= D.PulledCursor(cursor, jobs) {
      if Changed(repo, owner, cursor, id) {
        var i :| 0 <= i < |dtos| && dtos[i].id == id;
        assert jobs[i].incoming == dtos[i];
      }
    }
  }

  /** Merging the full listing since the cursor catches the device up. */
  lemma {:induction false} PullCatchesUp(repo: Repo, owner: Owner, store: D.LocalState, jobs: seq<Job>)
    requires Keyed(store.records) && Current(repo, owner, store)
    requires forall id :: id in repo.records ==> repo.records[id].id == id && repo.records[id].version <= repo.counter
    requires IsListing(repo, owner, store.cursor, D.IncomingOf(jobs))
    requires DistinctIncoming(jobs) && FreshCopies(store.records, jobs)
    requires CopyIds(store.records, jobs) !! repo.records.Keys
    ensures CaughtUp(repo, owner,
                     D.LocalState(MergeAll(store.records, jobs), D.PulledCursor(store.cursor, jobs), store.pending))
  {
    var after := MergeAll(store.records, jobs);
    MergeAllIsMerge(store.records, jobs);
    PulledCursorOf(repo, owner, store.cursor, jobs);
    forall id | Owns(repo, owner, id) ensures UpToDate(repo, after, id) {
      PulledIsChanged(repo, owner, store.cursor, jobs, id);
      if id in IncomingIds(jobs) {
        var j :| j in jobs && j.incoming.id == id;
        assert after[id] == Kept(store.records, j.incoming);
      }
    }
    forall id | id in CopyIds(store.records, jobs) ensures after[id].dirty {
      var j :| j in jobs && Forks(store.records, j.incoming) && j.copy.id == id;
      assert after[id] == CopyMade(store.records, j);
    }
    forall id | id in after && !after[id].dirty ensures Owns(repo, owner, id) {
      PulledIsChanged(repo, owner, store.cursor, jobs, id);
    }
  }

  /** Applying results of a chunk of distinct ids, all applied. */
  lemma {:induction false} AppliedExactly(records: Records, chunk: seq<StoredRecord>, results: seq<PushResult>)
    requires |results| == |chunk|
    requires forall i :: 0 <= i < |chunk| ==>
               results[i].status == Applied && results[i].serverRecord.id == chunk[i].dto.id
    requires forall i, j :: 0 <= i < j < |chunk| ==> chunk[i].dto.id != chunk[j].dto.id
    ensures var after := D.PutApplied(records, results);
      && (forall i :: 0 <= i < |chunk| ==>
            chunk[i].dto.id in after && after[chunk[i].dto.id] == Clean(results[i].serverRecord))
      && (forall id :: (forall i :: 0 <= i < |chunk| ==> chunk[i].dto.id != id) ==>
            (id in after <==> id in records) && (id in records ==> after[id] == records[id]))
  {
    forall i | 0 <= i < |chunk|
      ensures chunk[i].dto.id in D.PutApplied(records, results)
      ensures D.PutApplied(records, results)[chunk[i].dto.id] == Clean(results[i].serverRecord)
    {
      D.PutWhereApplied(records, results, i);
    }
    forall id | forall i :: 0 <= i < |chunk| ==> chunk[i].dto.id != id
      ensures id in D.PutApplied(records, results) <==> id in records
      ensures id in records ==> D.PutApplied(records, results)[id] == records[id]
    {
      D.NotTouched(records, results, id);
    }
  }

  /** With nothing dirty, being caught up is being equal. */
  lemma NothingDirty(repo: Repo, owner: Owner, store: D.LocalState)
    requires CaughtUp(repo, owner, store) && store.pending == []
    requires forall id :: id in store.records ==> !store.records[id].dirty
    ensures Matches(repo, owner, store.records) && Current(repo, owner, store)
  {
  }

  /** Each record of the owner is up to date after the reply to a chunk that was applied in full. */
  lemma {:induction false} ReplyBringsUpToDate(
    repo: Repo, owner: Owner, store: D.LocalState, chunk: seq<StoredRecord>, results: seq<PushResult>, id: Id)
    requires Progress(repo, owner, store, chunk, results) && |results| == |chunk|
    requires forall i, j :: 0 <= i < j < |chunk| ==> chunk[i].dto.id != chunk[j].dto.id
    requires Owns(repo, owner, id)
    ensures repo.records[id].version <= D.AppliedCursor(store.cursor, results) <= repo.counter
    ensures UpToDate(repo, D.PutApplied(store.records, results), id)
  {
    AppliedExactly(store.records, chunk, results);
    AppliedCursorBounds(store.cursor, results, repo.counter);
    if i :| 0 <= i < |chunk| && chunk[i].dto.id == id {
      assert AppliedAs(repo, owner, chunk[i].dto, results[i]);
    } else {
      assert RestUpToDate(repo, owner, store, chunk, |results|);
    }
  }

  /** The reply to a chunk that was applied in full takes the chunk off the dirty records. */
  lemma {:induction false} ReplyCatchesUp(
    repo: Repo, owner: Owner, store: D.LocalState, chunk: seq<StoredRecord>, rest: seq<StoredRecord>,
    results: seq<PushResult>)
    requires Progress(repo, owner, store, chunk, results) && |results| == |chunk|
    requires D.ListsDirty(store.records, chunk + rest)
    ensures CaughtUp(repo, owner, D.LocalState(D.PutApplied(store.records, results),
                                               D.AppliedCursor(store.cursor, results), []))
    ensures D.ListsDirty(D.PutApplied(store.records, results), rest)
  {
    var after := D.PutApplied(store.records, results);
    var all := chunk + rest;
    assert forall i :: 0 <= i < |chunk| ==> all[i] == chunk[i];
    AppliedExactly(store.records, chunk, results);
    forall i | 0 <= i < |results| ensures results[i].serverRecord.version <= repo.counter {
      assert AppliedAs(repo, owner, chunk[i].dto, results[i]);
    }
    AppliedCursorBounds(store.cursor, results, repo.counter);
    forall id | Owns(repo, owner, id)
      ensures repo.records[id].version <= D.AppliedCursor(store.cursor, results) && UpToDate(repo, after, id)
    {
      ReplyBringsUpToDate(repo, owner, store, chunk, results, id);
    }
    ReplyLeavesOwned(repo, owner, store, chunk, results);
    RestStaysDirty(store.records, after, chunk, rest);
  }

  lemma {:induction false} ReplyLeavesOwned(
    repo: Repo, owner: Owner, store: D.LocalState, chunk: seq<StoredRecord>, results: seq<PushResult>)
    requires Progress(repo, owner, store, chunk, results) && |results| == |chunk|
    requires forall i, j :: 0 <= i < j < |chunk| ==> chunk[i].dto.id != chunk[j].dto.id
    ensures CleanIsOwned(repo, owner, D.PutApplied(store.records, results))
  {
    AppliedExactly(store.records, chunk, results);
    forall i | 0 <= i < |chunk| ensures Owns(repo, owner, chunk[i].dto.id) {
      assert AppliedAs(repo, owner, chunk[i].dto, results[i]);
    }
  }

  lemma RestStaysDirty(records: Records, after: Records, chunk: seq<StoredRecord>, rest: seq<StoredRecord>)
    requires D.ListsDirty(records, chunk + rest)
    requires forall i :: 0 <= i < |chunk| ==> chunk[i].dto.id in after && !after[chunk[i].dto.id].dirty
    requires forall id :: (forall i :: 0 <= i < |chunk| ==> chunk[i].dto.id != id) ==>
               (id in after <==> id in records) && (id in records ==> after[id] == records[id])
    ensures D.ListsDirty(after, rest)
  {
    var all := chunk + rest;
    forall j | 0 <= j < |rest|
      ensures rest[j].dto.id in after && rest[j] == after[rest[j].dto.id] && rest[j].dirty
      ensures forall i :: 0 <= i < |chunk| ==> chunk[i].dto.id != rest[j].dto.id
      ensures forall i :: 0 <= i < j ==> rest[i].dto.id != rest[j].dto.id
    {
      assert all[|chunk| + j] == rest[j];
      assert forall i :: 0 <= i < |chunk| ==> all[i] == chunk[i];
      assert forall i :: 0 <= i < j ==> all[|chunk| + i] == rest[i];
    }
    assert forall i :: 0 <= i < |chunk| ==> all[i] == chunk[i];
    forall id | id in after && after[id].dirty
      ensures exists j :: 0 <= j < |rest| && rest[j].dto.id == id
    {
      var k :| 0 <= k < |all| && all[k].dto.id == id;
      assert rest[k - |chunk|].dto.id == id;
    }
  }

  // ---------------------------------------------------------------- steps of the system

  lemma EditKeepsCurrent(repo: Repo, owner: Owner, store: D.LocalState, edit: D.Edit)
    requires Keyed(store.records) && Current(repo, owner, store) && !edit.Import?
    requires edit.Create? ==> edit.id !in repo.records
    ensures Current(repo, owner, store.(records := D.ApplyEdit(store.records, edit)))
  {
  }

  lemma PullDeliveredKeeps(s: System, dev: Dev, jobs: seq<Job>, dirty: seq<StoredRecord>)
    requires Inv(s) && dev in s.nodes && LocalEnabled(s, dev, D.PullDelivered(jobs, dirty))
    ensures var node := LocalNode(s.nodes[dev], D.PullDelivered(jobs, dirty));
      && NodeInv(s.server, node)
      && (node.device.phase.Idle? ==> Matches(s.server.repo, node.owner, node.device.store.records))
  {
    var node := s.nodes[dev];
    var after := LocalNode(node, D.PullDelivered(jobs, dirty));
    assert NodeOk(s, node);
    MergeKeepsKeyed(node.device.store.records, jobs);
    PullCatchesUp(s.server.repo, node.owner, node.device.store, jobs);
    if dirty == [] {
      NothingDirty(s.server.repo, node.owner, after.device.store);
    } else {
      ChunksFlatten(dirty, EffectiveSize(node.device.config.chunkSize));
    }
  }

  lemma PushDeliveredKeeps(s: System, dev: Dev, results: seq<PushResult>)
    requires Inv(s) && dev in s.nodes && LocalEnabled(s, dev, D.PushDelivered(results))
    ensures NodeInv(s.server, LocalNode(s.nodes[dev], D.PushDelivered(results)))
  {
    var node := s.nodes[dev];
    assert NodeOk(s, node);
    var d := node.device;
    D.AppliedKeepsKeyed(d.store.records, results);
    ReplyCatchesUp(s.server.repo, node.owner, d.store, d.phase.chunk, Flatten(d.phase.chunks), results);
    D.WithoutOnly(d.store.pending[0]);
    assert !D.HasConflict(results);
  }

  lemma {:induction false} AdvancedKeeps(s: System, dev: Dev, key: Key)
    requires Inv(s) && dev in s.nodes && LocalEnabled(s, dev, D.Advanced(key))
    ensures var node := LocalNode(s.nodes[dev], D.Advanced(key));
      && NodeInv(s.server, node)
      && (node.device.phase.Idle? ==> Matches(s.server.repo, node.owner, node.device.store.records))
  {
    var node := s.nodes[dev];
    assert NodeOk(s, node);
    var d := node.device;
    if d.phase.Pushing? {
      if d.phase.chunks == [] {
        NothingDirty(s.server.repo, node.owner, d.store);
      } else {
        assert Flatten(d.phase.chunks) == d.phase.chunks[0] + Flatten(d.phase.chunks[1..]);
      }
    }
  }

  lemma {:induction false} EditedKeeps(s: System, dev: Dev, edit: D.Edit)
    requires Inv(s) && dev in s.nodes && LocalEnabled(s, dev, D.Edited(edit)) && Quiet(s, Local(dev, D.Edited(edit)))
    ensures NodeInv(s.server, LocalNode(s.nodes[dev], D.Edited(edit)))
  {
    var node := s.nodes[dev];
    assert NodeOk(s, node);
    D.EditKeepsKeyed(node.device.store.records, edit);
    EditKeepsCurrent(s.server.repo, node.owner, node.device.store, edit);
  }

  /** A step of a device keeps its node, and a Sync that ends leaves nothing dirty and everything equal. */
  lemma LocalKeepsNode(s: System, dev: Dev, e: D.Event)
    requires Inv(s) && dev in s.nodes && LocalEnabled(s, dev, e) && Quiet(s, Local(dev, e))
    ensures var node := LocalNode(s.nodes[dev], e);
      && NodeInv(s.server, node)
      && (!s.nodes[dev].device.phase.Idle? && node.device.phase.Idle? ==>
            Matches(s.server.repo, node.owner, node.device.store.records))
  {
    assert NodeOk(s, s.nodes[dev]);
    match e
    case Edited(edit) => EditedKeeps(s, dev, edit);
    case Started =>
    case Advanced(key) => AdvancedKeeps(s, dev, key);
    case PullDelivered(jobs, dirty) => PullDeliveredKeeps(s, dev, jobs, dirty);
    case PushDelivered(results) => PushDeliveredKeeps(s, dev, results);
  }

  lemma PullKeepsRegistered(s: System, dev: Dev, jobs: seq<Job>, dirty: seq<StoredRecord>)
    requires Inv(s) && dev in s.nodes && LocalEnabled(s, dev, D.PullDelivered(jobs, dirty))
    ensures var e := D.PullDelivered(jobs, dirty);
      Registered(LocalNext(s, dev, e), LocalNode(s.nodes[dev], e))
  {
    var node := s.nodes[dev];
    assert NodeOk(s, node);
    var records := node.device.store.records;
    MergeAllIsMerge(records, jobs);
    var registry := Register(s.registry, CopyIds(records, jobs), node.owner);
    forall id | id in MergeAll(records, jobs) ensures id in registry && registry[id] == node.owner {
      PulledIsChanged(s.server.repo, node.owner, node.device.store.cursor, jobs, id);
    }
  }

  /** The records that a reply replaces are those of the chunk. */
  lemma ReplyKeepsIds(s: System, node: Node, results: seq<PushResult>)
    requires NodeOk(s, node) && node.mail == Some(PushMail(results)) && node.device.phase.PushWait?
    ensures forall id :: id in D.PutApplied(node.device.store.records, results) ==> id in node.device.store.records
  {
    var chunk := node.device.phase.chunk;
    var all := chunk + Flatten(node.device.phase.chunks);
    assert forall i :: 0 <= i < |chunk| ==> all[i] == chunk[i];
    AppliedExactly(node.device.store.records, chunk, results);
  }

  lemma EditKeepsRegistered(s: System, dev: Dev, edit: D.Edit)
    requires dev in s.nodes && Registered(s, s.nodes[dev]) && LocalEnabled(s, dev, D.Edited(edit)) && !edit.Import?
    requires Keyed(s.nodes[dev].device.store.records)
    ensures Registered(LocalNext(s, dev, D.Edited(edit)), LocalNode(s.nodes[dev], D.Edited(edit)))
  {
  }

  /** No other step brings a new id. */
  lemma SilentKeepsRegistered(s: System, dev: Dev, e: D.Event)
    requires dev in s.nodes && Registered(s, s.nodes[dev]) && LocalEnabled(s, dev, e)
    requires e.Started? || e.Advanced? || e.Failed?
    ensures Registered(LocalNext(s, dev, e), LocalNode(s.nodes[dev], e))
  {
  }

  lemma LocalKeepsRegistered(s: System, dev: Dev, e: D.Event)
    requires Inv(s) && dev in s.nodes && LocalEnabled(s, dev, e) && Quiet(s, Local(dev, e))
    ensures Registered(LocalNext(s, dev, e), LocalNode(s.nodes[dev], e))
  {
    var node := s.nodes[dev];
    assert NodeOk(s, node);
    match e
    case PullDelivered(jobs, dirty) => PullKeepsRegistered(s, dev, jobs, dirty);
    case PushDelivered(results) => ReplyKeepsIds(s, node, results);
    case Edited(edit) => EditKeepsRegistered(s, dev, edit);
    case _ => SilentKeepsRegistered(s, dev, e);
  }

  lemma LocalKeepsOneBusy(s: System, dev: Dev, e: D.Event)
    requires Inv(s) && dev in s.nodes && LocalEnabled(s, dev, e) && Quiet(s, Local(dev, e))
    ensures OneBusy(LocalNext(s, dev, e))
  {
  }

  lemma LocalKeepsNodes(s: System, dev: Dev, e: D.Event)
    requires Inv(s) && dev in s.nodes && LocalEnabled(s, dev, e) && Quiet(s, Local(dev, e))
    ensures NodesOk(LocalNext(s, dev, e))
  {
    var next := LocalNext(s, dev, e);
    LocalKeepsOneBusy(s, dev, e);
    LocalKeepsNode(s, dev, e);
    LocalKeepsRegistered(s, dev, e);
    assert NewIds(s.nodes[dev].device, e) !! s.registry.Keys;
    assert NodeOk(s, s.nodes[dev]);
    assert NodeOk(next, next.nodes[dev]);
    forall d | d in next.nodes && d != dev ensures NodeOk(next, next.nodes[d]) {
      OtherStaysOk(s, dev, e, d);
    }
  }

  lemma OtherStaysOk(s: System, dev: Dev, e: D.Event, d: Dev)
    requires dev in s.nodes && LocalEnabled(s, dev, e)
    requires NewIds(s.nodes[dev].device, e) !! s.registry.Keys
    requires d in s.nodes && d != dev && NodeOk(s, s.nodes[d])
    ensures NodeOk(LocalNext(s, dev, e), s.nodes[d])
  {
  }

  /** The message that a device no longer waits for is done. */
  lemma DeliveredIsDone(s: System, dev: Dev, results: seq<PushResult>, m: Msg)
    requires Inv(s) && dev in s.nodes && LocalEnabled(s, dev, D.PushDelivered(results)) && m in Sends(s.nodes[dev])
    ensures Done(s.server.repo, m)
  {
  }

  lemma LocalKeepsMessages(s: System, dev: Dev, e: D.Event)
    requires Inv(s) && dev in s.nodes && LocalEnabled(s, dev, e) && Quiet(s, Local(dev, e))
    ensures MessagesOk(LocalNext(s, dev, e))
  {
    var next := LocalNext(s, dev, e);
    assert NodeOk(s, s.nodes[dev]);
    KeysAfterLocal(s, dev, e);
    forall m | m in next.sent ensures Awaited(next, m) || Done(next.server.repo, m) {
      AwaitedOrDone(s, dev, e, m);
    }
  }

  lemma AwaitedOrDone(s: System, dev: Dev, e: D.Event, m: Msg)
    requires Inv(s) && dev in s.nodes && LocalEnabled(s, dev, e) && Quiet(s, Local(dev, e))
    requires m in LocalNext(s, dev, e).sent
    ensures Awaited(LocalNext(s, dev, e), m) || Done(s.server.repo, m)
  {
    var next := LocalNext(s, dev, e);
    assert NodeOk(s, s.nodes[dev]);
    if m in Sends(next.nodes[dev]) {
      assert Awaited(next, m);
    } else if m in Sends(s.nodes[dev]) {
      DeliveredIsDone(s, dev, e.results, m);
    } else if Awaited(s, m) {
      StillAwaited(s, dev, e, m);
    }
  }

  lemma StillAwaited(s: System, dev: Dev, e: D.Event, m: Msg)
    requires dev in s.nodes && LocalEnabled(s, dev, e) && Awaited(s, m) && m !in Sends(s.nodes[dev])
    ensures Awaited(LocalNext(s, dev, e), m)
  {
    var d :| d in s.nodes && m in Sends(s.nodes[d]);
    assert m in Sends(LocalNext(s, dev, e).nodes[d]);
  }

  /** A step of a device sends what it sent already, or a message under a fresh key. */
  lemma {:induction false} KeysAfterLocal(s: System, dev: Dev, e: D.Event)
    requires Inv(s) && dev in s.nodes && LocalEnabled(s, dev, e) && Quiet(s, Local(dev, e))
    ensures var next := LocalNext(s, dev, e);
      && (forall m :: m in next.sent ==> m.key in next.keys)
      && (forall m, m' | m in next.sent && m' in next.sent && m.key == m'.key :: m == m')
  {
    SendsOldOrFresh(s, dev, e);
  }

  lemma {:induction false} SendsOldOrFresh(s: System, dev: Dev, e: D.Event)
    requires dev in s.nodes && NodeOk(s, s.nodes[dev]) && LocalEnabled(s, dev, e)
    ensures var next := LocalNext(s, dev, e);
      forall m :: m in Sends(next.nodes[dev]) ==> m in s.sent || (m.key !in s.keys && m.key in next.keys)
  {
  }

  lemma LocalKeepsInv(s: System, dev: Dev, e: D.Event)
    requires Inv(s) && dev in s.nodes && LocalEnabled(s, dev, e) && Quiet(s, Local(dev, e))
    ensures Inv(LocalNext(s, dev, e))
  {
    LocalKeepsNodes(s, dev, e);
    LocalKeepsMessages(s, dev, e);
    assert NewIds(s.nodes[dev].device, e) !! s.registry.Keys;
  }

  // ---------------------------------------------------------------- steps of the server

  /** What one owner writes leaves every node in order that is idle or belongs to somebody else. */
  lemma GrowthKeepsNode(s: System, next: System, writer: Owner, node: Node)
    requires NodeOk(s, node) && GrewBy(s.server.repo, next.server.repo, writer)
    requires node.owner != writer || node.device.phase.Idle?
    requires forall m :: m in Sends(node) ==> SameFor(s.server, next.server, KeyOf(m))
    requires s.sent <= next.sent
    requires forall id :: id in s.registry ==> id in next.registry && next.registry[id] == s.registry[id]
    ensures NodeOk(next, node)
  {
    if node.owner != writer {
      OtherOwnerAfterGrowth(s.server, next.server, writer, node);
    } else {
      IdleAfterGrowth(s.server, next.server, writer, node);
    }
  }

  /** A step of the server that writes nothing leaves a node in order whose key it does not concern. */
  lemma NoWriteKeepsNode(s: System, next: System, node: Node)
    requires NodeOk(s, node) && next.server.repo == s.server.repo
    requires forall m :: m in Sends(node) ==> SameFor(s.server, next.server, KeyOf(m))
    requires next.sent == s.sent && next.registry == s.registry
    ensures NodeOk(next, node)
  {
  }

  /** The step is one of a handler of the message. */
  predicate IsFor(server: Server, op: ServerOp, msg: Msg)
    requires ServerEnabled(server, op)
  {
    match op
    case LookUpOp(_, m, _) => m == msg
    case ApplyOp(h, _) => server.handlers[h].msg == msg
    case SaveOp(h, _) => server.handlers[h].msg == msg
    case _ => false
  }

  /** Such a step concerns no other key. */
  lemma OtherKeysSame(server: Server, op: ServerOp, msg: Msg, k: (Owner, Key))
    requires ServerEnabled(server, op) && IsFor(server, op, msg) && k != KeyOf(msg)
    ensures SameFor(server, ServerStep(server, op), k)
  {
  }

  /** So a node that does not wait under the message's key notices no more than what is written. */
  lemma UnconcernedKeeps(s: System, op: ServerOp, msg: Msg, node: Node)
    requires ServeEnabled(s, op, None) && IsFor(s.server, op, msg) && NodeOk(s, node)
    requires forall m :: m in Sends(node) ==> KeyOf(m) != KeyOf(msg)
    requires ServerStep(s.server, op).repo == s.server.repo ||
             (GrewBy(s.server.repo, ServerStep(s.server, op).repo, msg.owner) &&
              (node.owner != msg.owner || node.device.phase.Idle?))
    ensures NodeOk(ServeNext(s, op, None), node)
  {
    var next := ServeNext(s, op, None);
    forall m | m in Sends(node) ensures SameFor(s.server, next.server, KeyOf(m)) {
      OtherKeysSame(s.server, op, msg, KeyOf(m));
    }
    if next.server.repo == s.server.repo {
      NoWriteKeepsNode(s, next, node);
    } else {
      GrowthKeepsNode(s, next, msg.owner, node);
    }
  }

  /** Two nodes never wait under one key: the message would be the same, and one of them idle. */
  lemma OneWaits(s: System, d: Dev, d': Dev, m: Msg, m': Msg)
    requires Inv(s) && d in s.nodes && d' in s.nodes && m in Sends(s.nodes[d]) && m' in Sends(s.nodes[d'])
    requires KeyOf(m) == KeyOf(m')
    ensures d == d' && m == m'
  {
  }

  /** The next record of the chunk is new to the server or based on what it has. */
  lemma NextIsAcceptable(
    repo: Repo, owner: Owner, store: D.LocalState, chunk: seq<StoredRecord>, rest: seq<StoredRecord>,
    results: seq<PushResult>)
    requires Progress(repo, owner, store, chunk, results) && |results| < |chunk|
    requires D.ListsDirty(store.records, chunk + rest)
    requires var id := chunk[|results|].dto.id; id in repo.records ==> repo.records[id].owner == owner
    ensures var dto := chunk[|results|].dto; dto.id in repo.records ==> repo.records[dto.id].version == dto.baseVersion
    ensures forall i :: 0 <= i < |results| ==> chunk[i].dto.id != chunk[|results|].dto.id
  {
    var n := |results|;
    var all := chunk + rest;
    assert forall i :: 0 <= i < |chunk| ==> all[i] == chunk[i];
    if chunk[n].dto.id in repo.records {
      assert Owns(repo, owner, chunk[n].dto.id);
      assert UpToDate(repo, store.records, chunk[n].dto.id);
    }
  }

  lemma StaysApplied(repo: Repo, owner: Owner, dto: RecordDTO, now: Time, earlier: RecordDTO, result: PushResult)
    requires AppliedAs(repo, owner, earlier, result) && earlier.id != dto.id
    ensures AppliedAs(UpsertDTO(repo, owner, dto, now).repo, owner, earlier, result)
  {
  }

  lemma RestStaysUpToDate(
    repo: Repo, owner: Owner, store: D.LocalState, chunk: seq<StoredRecord>, n: nat, now: Time)
    requires n < |chunk| && RestUpToDate(repo, owner, store, chunk, n)
    ensures RestUpToDate(UpsertDTO(repo, owner, chunk[n].dto, now).repo, owner, store, chunk, n + 1)
  {
    var after := UpsertDTO(repo, owner, chunk[n].dto, now).repo;
    forall id | Owns(after, owner, id) && (forall i :: 0 <= i < n + 1 ==> chunk[i].dto.id != id)
      ensures after.records[id].version <= store.cursor && UpToDate(after, store.records, id)
    {
      assert chunk[n].dto.id != id;
      assert Owns(repo, owner, id) && forall i :: 0 <= i < n ==> chunk[i].dto.id != id;
    }
  }

  /** So it is applied. */
  lemma {:induction false} NextIsApplied(repo: Repo, owner: Owner, store: D.LocalState, chunk: seq<StoredRecord>,
                      results: seq<PushResult>, now: Time)
    requires Progress(repo, owner, store, chunk, results) && |results| < |chunk|
    requires forall i :: 0 <= i < |results| ==> chunk[i].dto.id != chunk[|results|].dto.id
    requires var dto := chunk[|results|].dto;
      && dto.baseVersion <= repo.counter
      && (dto.id in repo.records ==>
            repo.records[dto.id].owner == owner && repo.records[dto.id].version == dto.baseVersion)
    ensures var dto := chunk[|results|].dto;
      var u := UpsertDTO(repo, owner, dto, now);
      && GrewBy(repo, u.repo, owner)
      && Progress(u.repo, owner, store, chunk, results + [ResultOf(dto, u)])
  {
    var n := |results|;
    var dto := chunk[n].dto;
    var u := UpsertDTO(repo, owner, dto, now);
    var results' := results + [ResultOf(dto, u)];
    forall i | 0 <= i < n + 1 ensures AppliedAs(u.repo, owner, chunk[i].dto, results'[i]) {
      if i < n { StaysApplied(repo, owner, dto, now, chunk[i].dto, results[i]); }
    }
    RestStaysUpToDate(repo, owner, store, chunk, n, now);
  }

  lemma NextOfChunk(s: System, h: HandlerId, dev: Dev)
    requires Inv(s) && BasesKnown(s) && h in s.server.handlers &&
               |s.server.handlers[h].results| < |s.server.handlers[h].msg.dtos|
    requires dev in s.nodes && s.server.handlers[h].msg in Sends(s.nodes[dev])
    ensures var node := s.nodes[dev];
      var handler := s.server.handlers[h];
      var dto := NextDTO(handler);
      && node.device.phase.PushWait? && node.mail.None? && KeyOf(handler.msg) !in s.server.cache
      && var chunk := node.device.phase.chunk;
      && Progress(s.server.repo, node.owner, node.device.store, chunk, handler.results)
      && |handler.results| < |chunk| && dto == chunk[|handler.results|].dto
      && dto.id in s.registry && s.registry[dto.id] == node.owner && dto.baseVersion <= s.server.repo.counter
  {
    var node := s.nodes[dev];
    assert NodeOk(s, node);
    var handler := s.server.handlers[h];
    var chunk := node.device.phase.chunk;
    assert (chunk + Flatten(node.device.phase.chunks))[|handler.results|] == chunk[|handler.results|];
    assert handler.msg in s.sent;
  }

  lemma ApplyIsProgress(s: System, h: HandlerId, at: Time, dev: Dev)
    requires Inv(s) && BasesKnown(s) && ServerEnabled(s.server, ApplyOp(h, at))
    requires dev in s.nodes && s.server.handlers[h].msg in Sends(s.nodes[dev])
    ensures var next := ServerStep(s.server, ApplyOp(h, at));
      GrewBy(s.server.repo, next.repo, s.nodes[dev].owner) && NodeInv(next, s.nodes[dev])
    ensures var dto := NextDTO(s.server.handlers[h]);
      dto.id in s.registry && s.registry[dto.id] == s.nodes[dev].owner
  {
    var node := s.nodes[dev];
    assert NodeOk(s, node);
    NextOfChunk(s, h, dev);
    var handler := s.server.handlers[h];
    var chunk := node.device.phase.chunk;
    NextIsAcceptable(s.server.repo, node.owner, node.device.store, chunk, Flatten(node.device.phase.chunks),
                     handler.results);
    NextIsApplied(s.server.repo, node.owner, node.device.store, chunk, handler.results, at);
    AppliedUnderway(s.server, h, at, node);
  }

  lemma {:induction false} AppliedUnderway(server: Server, h: HandlerId, at: Time, node: Node)
    requires ServerEnabled(server, ApplyOp(h, at)) && NodeInv(server, node) && server.handlers[h].msg in Sends(node)
    requires node.mail.None? && KeyOf(server.handlers[h].msg) !in server.cache
    requires var next := ServerStep(server, ApplyOp(h, at));
      Progress(next.repo, node.owner, node.device.store, node.device.phase.chunk, next.handlers[h].results)
    ensures NodeInv(ServerStep(server, ApplyOp(h, at)), node)
  {
    assert h in ServerStep(server, ApplyOp(h, at)).handlers;
  }

  lemma UpsertKeepsRepoRegistered(s: System, next: System, owner: Owner, dto: RecordDTO, now: Time)
    requires RepoRegistered(s) && next.registry == s.registry
    requires next.server.repo == UpsertDTO(s.server.repo, owner, dto, now).repo
    requires dto.id in s.registry && s.registry[dto.id] == owner
    ensures RepoRegistered(next)
  {
  }

  lemma ApplyAwaitedKeepsInv(s: System, h: HandlerId, at: Time, dev: Dev)
    requires Inv(s) && BasesKnown(s) && ServerEnabled(s.server, ApplyOp(h, at))
    requires dev in s.nodes && s.server.handlers[h].msg in Sends(s.nodes[dev])
    ensures RepoRegistered(ServeNext(s, ApplyOp(h, at), None)) && NodesOk(ServeNext(s, ApplyOp(h, at), None))
  {
    var next := ServeNext(s, ApplyOp(h, at), None);
    var msg := s.server.handlers[h].msg;
    ApplyIsProgress(s, h, at, dev);
    assert NodeOk(s, s.nodes[dev]);
    assert msg.owner == s.nodes[dev].owner;
    UpsertKeepsRepoRegistered(s, next, msg.owner, NextDTO(s.server.handlers[h]), at);
    forall d | d in next.nodes && d != dev ensures NodeOk(next, next.nodes[d]) {
      OthersUnconcerned(s, ApplyOp(h, at), msg, dev, d);
    }
  }

  lemma OthersUnconcerned(s: System, op: ServerOp, msg: Msg, dev: Dev, d: Dev)
    requires Inv(s) && ServeEnabled(s, op, None) && IsFor(s.server, op, msg)
    requires dev in s.nodes && msg in Sends(s.nodes[dev]) && d in s.nodes && d != dev
    requires ServerStep(s.server, op).repo == s.server.repo ||
               GrewBy(s.server.repo, ServerStep(s.server, op).repo, msg.owner)
    ensures NodeOk(ServeNext(s, op, None), s.nodes[d])
  {
    assert NodeOk(s, s.nodes[d]) && NodeOk(s, s.nodes[dev]);
    forall m | m in Sends(s.nodes[d]) ensures KeyOf(m) != KeyOf(msg) {
      if KeyOf(m) == KeyOf(msg) { OneWaits(s, d, dev, m, msg); }
    }
    UnconcernedKeeps(s, op, msg, s.nodes[d]);
  }

  /** A step for a message that nobody waits for writes nothing, and no node notices it. */
  lemma StaleKeepsNodes(s: System, op: ServerOp, msg: Msg)
    requires Inv(s) && ServeEnabled(s, op, None) && msg in s.sent && !Awaited(s, msg)
    requires IsFor(s.server, op, msg)
    ensures ServeNext(s, op, None).server.repo == s.server.repo
    ensures NodesOk(ServeNext(s, op, None))
  {
    var next := ServeNext(s, op, None);
    StaleWritesNothing(s, op, msg);
    forall d | d in next.nodes ensures NodeOk(next, next.nodes[d]) {
      assert NodeOk(s, s.nodes[d]);
      forall m | m in Sends(s.nodes[d]) ensures KeyOf(m) != KeyOf(msg) {
        assert Awaited(s, m);
      }
      UnconcernedKeeps(s, op, msg, s.nodes[d]);
    }
  }

  lemma StaleWritesNothing(s: System, op: ServerOp, msg: Msg)
    requires MessagesOk(s) && ServeEnabled(s, op, None) && msg in s.sent && !Awaited(s, msg)
    requires IsFor(s.server, op, msg)
    ensures ServerStep(s.server, op).repo == s.server.repo
  {
  }

  /** A lookup or a save for a message that a device waits for. */
  lemma AwaitedKeepsNodes(s: System, op: ServerOp, msg: Msg, dev: Dev)
    requires Inv(s) && ServeEnabled(s, op, None) && QuietServe(s, op)
    requires dev in s.nodes && msg in Sends(s.nodes[dev])
    requires IsFor(s.server, op, msg) && !op.ApplyOp?
    ensures NodesOk(ServeNext(s, op, None))
  {
    var next := ServeNext(s, op, None);
    AwaitedStep(s, op, msg, dev);
    assert NodeOk(s, s.nodes[dev]);
    forall d | d in next.nodes && d != dev ensures NodeOk(next, next.nodes[d]) {
      OthersUnconcerned(s, op, msg, dev, d);
    }
  }

  lemma {:induction false} AwaitedStep(s: System, op: ServerOp, msg: Msg, dev: Dev)
    requires Inv(s) && ServeEnabled(s, op, None) && QuietServe(s, op)
    requires dev in s.nodes && msg in Sends(s.nodes[dev])
    requires IsFor(s.server, op, msg) && !op.ApplyOp?
    ensures NodeInv(ServerStep(s.server, op), s.nodes[dev])
  {
    assert NodeOk(s, s.nodes[dev]);
    assert Awaited(s, msg);
    var next := ServerStep(s.server, op);
    if op.SaveOp? {
      assert KeyOf(msg) !in s.server.cache;
      assert Unhandled(next, KeyOf(msg));
    }
  }

  lemma RestKeepsNodes(s: System, next: System, writer: Owner)
    requires Inv(s) && GrewBy(s.server.repo, next.server.repo, writer) && !Busy(s, writer)
    requires next.nodes == s.nodes && next.sent == s.sent
    requires next.server.cache == s.server.cache && next.server.handlers == s.server.handlers
    requires forall id :: id in s.registry ==> id in next.registry && next.registry[id] == s.registry[id]
    ensures NodesOk(next)
  {
    forall d | d in next.nodes ensures NodeOk(next, next.nodes[d]) {
      assert NodeOk(s, s.nodes[d]);
      GrowthKeepsNode(s, next, writer, s.nodes[d]);
    }
  }

  lemma {:induction false} ExpireKeepsNodes(s: System, at: Time)
    requires Inv(s) && QuietServe(s, ExpireOp(at))
    ensures NodesOk(ServeNext(s, ExpireOp(at), None))
  {
    var next := ServeNext(s, ExpireOp(at), None);
    forall d | d in next.nodes ensures NodeOk(next, next.nodes[d]) {
      assert NodeOk(s, s.nodes[d]);
      forall m | m in Sends(s.nodes[d]) ensures SameFor(s.server, next.server, KeyOf(m)) {
        assert Awaited(s, m);
      }
      NoWriteKeepsNode(s, next, s.nodes[d]);
    }
  }

  lemma ServeKeepsRepoAndNodes(s: System, op: ServerOp)
    requires Inv(s) && BasesKnown(s) && ServeEnabled(s, op, None) && QuietServe(s, op)
    ensures RepoRegistered(ServeNext(s, op, None)) && NodesOk(ServeNext(s, op, None))
  {
    var next := ServeNext(s, op, None);
    match op
    case LookUpOp(_, msg, _) => PushStepKeeps(s, op, msg);
    case ApplyOp(h, _) => PushStepKeeps(s, op, s.server.handlers[h].msg);
    case SaveOp(h, _) => PushStepKeeps(s, op, s.server.handlers[h].msg);
    case WriteOp(rec, _, _) => RestKeepsNodes(s, next, rec.owner);
    case RemoveOp(_, owner, _) => RestKeepsNodes(s, next, owner);
    case ExpireOp(at) => ExpireKeepsNodes(s, at);
  }

  lemma PushStepKeeps(s: System, op: ServerOp, msg: Msg)
    requires Inv(s) && BasesKnown(s) && ServeEnabled(s, op, None) && QuietServe(s, op)
    requires IsFor(s.server, op, msg)
    ensures RepoRegistered(ServeNext(s, op, None)) && NodesOk(ServeNext(s, op, None))
  {
    if Awaited(s, msg) {
      var dev :| dev in s.nodes && msg in Sends(s.nodes[dev]);
      if op.ApplyOp? {
        ApplyAwaitedKeepsInv(s, op.h, op.at, dev);
      } else {
        AwaitedKeepsNodes(s, op, msg, dev);
      }
    } else {
      StaleKeepsNodes(s, op, msg);
    }
  }

  lemma {:induction false} ServeKeepsMessages(s: System, op: ServerOp)
    requires Inv(s) && ServeEnabled(s, op, None)
    ensures MessagesOk(ServeNext(s, op, None))
  {
    var next := ServeNext(s, op, None);
    forall m | m in next.sent ensures Awaited(next, m) || Done(next.server.repo, m) {
      if Awaited(s, m) {
        var d :| d in s.nodes && m in Sends(s.nodes[d]);
        assert m in Sends(next.nodes[d]);
      } else {
        forall i | 0 <= i < |m.dtos| ensures Spent(next.server.repo, m.dtos[i]) {
          StepKeepsSpent(s.server, op, m.dtos[i]);
        }
      }
    }
  }

  lemma ReplyKeepsInv(s: System, op: ServerOp, dev: Dev)
    requires ServeEnabled(s, op, Some(dev)) && Inv(ServeNext(s, op, None))
    ensures Inv(ServeNext(s, op, Some(dev)))
  {
    ReplyKeepsNodes(s, op, dev);
    MailKeepsMessages(ServeNext(s, op, None), ServeNext(s, op, Some(dev)));
  }

  /** The answer that reaches a waiting device is the one that is remembered. */
  lemma ReplyKeepsNode(s: System, op: ServerOp, dev: Dev)
    requires ServeEnabled(s, op, Some(dev)) && NodeOk(ServeNext(s, op, None), s.nodes[dev])
    ensures NodeOk(ServeNext(s, op, Some(dev)), ServeNext(s, op, Some(dev)).nodes[dev])
  {
    var (msg, results) := Reply(s.server, op).value;
    var server := ServerStep(s.server, op);
    assert KeyOf(msg) in server.cache && server.cache[KeyOf(msg)].results == results;
  }

  lemma {:induction false} ReplyKeepsNodes(s: System, op: ServerOp, dev: Dev)
    requires ServeEnabled(s, op, Some(dev)) && NodesOk(ServeNext(s, op, None))
    ensures NodesOk(ServeNext(s, op, Some(dev)))
  {
    var quiet := ServeNext(s, op, None);
    var next := ServeNext(s, op, Some(dev));
    assert NodeOk(quiet, quiet.nodes[dev]);
    ReplyKeepsNode(s, op, dev);
    forall d | d in next.nodes && d != dev ensures NodeOk(next, next.nodes[d]) {
      assert NodeOk(quiet, quiet.nodes[d]);
    }
  }

  lemma MailKeepsMessages(s: System, next: System)
    requires MessagesOk(s) && next.server == s.server && next.sent == s.sent && next.keys == s.keys
    requires next.nodes.Keys == s.nodes.Keys
    requires forall d :: d in s.nodes ==> Sends(next.nodes[d]) == Sends(s.nodes[d])
    ensures MessagesOk(next)
  {
  }

  lemma ServeKeepsInv(s: System, op: ServerOp, to: Option<Dev>)
    requires Inv(s) && BasesKnown(s) && ServeEnabled(s, op, to) && QuietServe(s, op)
    ensures Inv(ServeNext(s, op, to))
  {
    ServeKeepsRepoAndNodes(s, op);
    ServeKeepsMessages(s, op);
    if to.Some? {
      ReplyKeepsInv(s, op, to.value);
    }
  }

  /** Neither what is sent nor the server changes. */
  lemma {:induction false} NodesOnlyKeepsInv(s: System, next: System)
    requires Inv(s) && next.server == s.server && next.sent == s.sent && next.keys == s.keys
    requires next.registry == s.registry && next.nodes.Keys == s.nodes.Keys
    requires forall d :: d in s.nodes ==>
               && next.nodes[d].device == s.nodes[d].device && next.nodes[d].owner == s.nodes[d].owner
               && NodeInv(next.server, next.nodes[d])
    ensures Inv(next)
  {
    forall d | d in next.nodes ensures NodeOk(next, next.nodes[d]) {
      assert NodeOk(s, s.nodes[d]);
    }
    MailKeepsMessages(s, next);
  }

  lemma StepKeepsInv(s: System, step: Step)
    requires Inv(s) && BasesKnown(s) && Enabled(s, step) && Quiet(s, step)
    ensures Inv(Next(s, step))
  {
    match step
    case Local(dev, e) => LocalKeepsInv(s, dev, e);
    case Serve(op, to) => ServeKeepsInv(s, op, to);
    case ServePull(dev, dtos) => PullAnsweredKeepsInv(s, dev, dtos);
    case Export(dev) => ExportKeepsInv(s, dev);
  }

  lemma PullAnsweredKeepsInv(s: System, dev: Dev, dtos: seq<RecordDTO>)
    requires Inv(s) && Enabled(s, ServePull(dev, dtos))
    ensures Inv(Next(s, ServePull(dev, dtos)))
  {
    forall d | d in s.nodes ensures NodeInv(s.server, Next(s, ServePull(dev, dtos)).nodes[d]) {
      assert NodeOk(s, s.nodes[d]);
    }
    NodesOnlyKeepsInv(s, Next(s, ServePull(dev, dtos)));
  }

  lemma ExportKeepsInv(s: System, dev: Dev)
    requires Inv(s) && dev in s.nodes
    ensures Inv(Next(s, Export(dev)))
  {
    NodesOnlyKeepsInv(s, Next(s, Export(dev)));
  }

  lemma SoundBasesKnown(s: System)
    requires T.Inv(s)
    ensures BasesKnown(s)
  {
  }

  ghost predicate Iterating(s: System) {
    forall d :: d in s.nodes ==> s.nodes[d].device.config.maxIterations >= 1
  }

  lemma InitialInv(s: System)
    requires Initial(s) && Iterating(s)
    ensures Inv(s)
  {
    forall d | d in s.nodes ensures NodeOk(s, s.nodes[d]) {}
  }

  lemma {:induction false} RunKeepsBasesKnown(s: System, steps: seq<Step>)
    requires Initial(s) && IsRun(s, steps)
    ensures BasesKnown(Run(s, steps))
  {
    assert T.Inv(s);
    T.RunKeepsInv(s, steps);
    SoundBasesKnown(Run(s, steps));
  }

  lemma {:induction false} RunKeepsInv(s: System, steps: seq<Step>)
    requires Initial(s) && Iterating(s) && IsRun(s, steps) && QuietRun(s, steps)
    ensures Inv(Run(s, steps))
  {
    if steps == [] {
      InitialInv(s);
    } else {
      RunKeepsInv(s, steps[..|steps| - 1]);
      RunKeepsBasesKnown(s, steps[..|steps| - 1]);
      StepKeepsInv(Run(s, steps[..|steps| - 1]), steps[|steps| - 1]);
    }
  }

  /** No Sync of a quiet run needs a second iteration or meets a conflict. */
  ghost predicate FirstIteration(phase: D.Phase) {
    match phase
    case Pulling(i) => i == 0
    case Pushing(i, _, conflicts) => i == 0 && !conflicts
    case PushWait(i, _, _, _, conflicts) => i == 0 && !conflicts
    case _ => true
  }

  /**
   * At every moment of a quiet run each Sync is in its first iteration and without a conflict, and when
   * the last step ends one, that device holds exactly the server's records of its owner, all clean.
   */
  lemma {:induction false} QuietSyncsConverge(s: System, steps: seq<Step>)
    requires Initial(s) && Iterating(s) && IsRun(s, steps) && QuietRun(s, steps)
    ensures forall d :: d in Run(s, steps).nodes ==> FirstIteration(Run(s, steps).nodes[d].device.phase)
    ensures steps != [] && steps[|steps| - 1].Local? ==>
              var before := Run(s, steps[..|steps| - 1]);
              var after := Run(s, steps);
              var dev := steps[|steps| - 1].dev;
              dev in before.nodes && dev in after.nodes &&
              (!before.nodes[dev].device.phase.Idle? && after.nodes[dev].device.phase.Idle? ==>
                && Matches(after.server.repo, after.nodes[dev].owner, after.nodes[dev].device.store.records)
                && after.nodes[dev].device.store.pending == [])
  {
    RunKeepsInv(s, steps);
    var after := Run(s, steps);
    forall d | d in after.nodes ensures FirstIteration(after.nodes[d].device.phase) {
      assert NodeOk(after, after.nodes[d]);
    }
    if steps != [] && steps[|steps| - 1].Local? {
      RunKeepsInv(s, steps[..|steps| - 1]);
      var before := Run(s, steps[..|steps| - 1]);
      LocalKeepsNode(before, steps[|steps| - 1].dev, steps[|steps| - 1].e);
    }
  }
}
